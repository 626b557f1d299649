/**
 * What the WKB reader computes, as functions of the byte buffer and a start
 * position: each returns the decoded value and the position after it, or the
 * error that aborts the decode. The imperative reader in GeometryReader is
 * proved to compute exactly these.
 */
module WkbDecoding {

  import opened Wrappers
  import opened GeometryTypes
  import opened WkbErrors
  import opened GeometryCodes
  import opened ByteReader
  import opened Geometries

  /** The legacy "2.5D" high bit of a type code. */
  const WKB25D: int := 0x8000_0000

  datatype GeometryTypeInfo = GeometryTypeInfo(code: int, geometryType: GeometryType, hasZ: bool, hasM: bool)

  /** A decoded header: the byte order its marker selects and its type information. */
  datatype Header = Header(byteOrder: ByteOrder, info: GeometryTypeInfo)

  /** Marker 0 selects big-endian; every other value selects little-endian. */
  function ByteOrderOf(marker: Byte): (order: ByteOrder)
    ensures order == BigEndian <==> marker == 0
    ensures order == LittleEndian <==> marker != 0
  {
    if marker == 0 then BigEndian else LittleEndian
  }

  /**
   * Resolves a raw unsigned type code: a code strictly above the 2.5D bit has
   * Z and loses that bit; the rest (narrowed to a Java int) is looked up in
   * the code table, which also gives Z unless the bit already did, and M.
   */
  function ResolveTypeCode(raw: UInt32): (r: Result<GeometryTypeInfo, WkbError>)
    ensures r.Ok? ==> r.value.code == if raw > WKB25D then raw - WKB25D else raw
    ensures r.Ok? ==> 0 <= r.value.code < 4000
    ensures raw == WKB25D ==> r.Err?
    ensures r.Err? ==> r.error == UnsupportedCode(if raw > WKB25D then raw - WKB25D else ToInt32(raw))
  {
    var legacyZ := raw > WKB25D;
    var code := if legacyZ then raw - WKB25D else ToInt32(raw);
    var geometryType :- GetGeometryType(code);
    var hasZ :- if legacyZ then Ok(true) else HasZ(code);
    var hasM :- HasM(code);
    Ok(GeometryTypeInfo(code, geometryType, hasZ, hasM))
  }

  /** The byte-order marker and the type code of a header. */
  function ParseGeometryType(data: seq<Byte>, pos: nat): (r: Result<Parsed<Header>, WkbError>)
    ensures pos + 5 > |data| ==> r == Err(Truncated)
    ensures r.Ok? ==> r.value.end == pos + 5 <= |data|
    ensures pos + 5 <= |data| && r.Err? ==> r.error.UnsupportedCode?
  {
    var marker :- ReadByteAt(data, pos);
    var order := ByteOrderOf(marker.value);
    var raw :- ReadUnsignedIntAt(data, marker.end, order);
    var info :- ResolveTypeCode(raw.value);
    Ok(Parsed(Header(order, info), raw.end))
  }

  /** The eight bytes at `pos` as a coordinate word. */
  function WordAt(data: seq<Byte>, pos: nat, order: ByteOrder): Word64
    requires pos + 8 <= |data|
  {
    UIntAtBound(data, pos, 8, order);
    assert Pow256(8) == 0x1_0000_0000_0000_0000;
    UIntAt(data, pos, 8, order)
  }

  function ReadCoordinateAt(data: seq<Byte>, pos: nat, order: ByteOrder): Result<Parsed<Word64>, WkbError> {
    if pos + 8 <= |data| then Ok(Parsed(WordAt(data, pos, order), pos + 8)) else Err(Truncated)
  }

  function ReadCoordinateIfAt(data: seq<Byte>, pos: nat, order: ByteOrder, present: bool)
    : Result<Parsed<Option<Word64>>, WkbError>
  {
    if present then
      var w :- ReadCoordinateAt(data, pos, order);
      Ok(Parsed(Some(w.value), w.end))
    else Ok(Parsed(None, pos))
  }

  /** Bytes in a point: x and y, then z and m when present. */
  function PointSize(hasZ: bool, hasM: bool): nat {
    16 + (if hasZ then 8 else 0) + (if hasM then 8 else 0)
  }

  /** A headerless point: x, y, then z only if hasZ, then m only if hasM. */
  function ParsePoint(data: seq<Byte>, pos: nat, order: ByteOrder, hasZ: bool, hasM: bool)
    : (r: Result<Parsed<Geometry>, WkbError>)
    ensures r.Ok? ==> pos <= r.value.end <= |data|
    ensures r.Err? ==> r.error == Truncated
  {
    var x :- ReadCoordinateAt(data, pos, order);
    var y :- ReadCoordinateAt(data, x.end, order);
    var z :- ReadCoordinateIfAt(data, y.end, order, hasZ);
    var m :- ReadCoordinateIfAt(data, z.end, order, hasM);
    Ok(Parsed(Point(hasZ, hasM, x.value, y.value, z.value, m.value), m.end))
  }

  /** The point whose coordinates are the words at `pos`: x, y, then z and m when present. */
  function PointAt(data: seq<Byte>, pos: nat, order: ByteOrder, hasZ: bool, hasM: bool): Geometry
    requires pos + PointSize(hasZ, hasM) <= |data|
  {
    Point(hasZ, hasM, WordAt(data, pos, order), WordAt(data, pos + 8, order),
          if hasZ then Some(WordAt(data, pos + 16, order)) else None,
          if hasM then Some(WordAt(data, pos + PointSize(hasZ, false), order)) else None)
  }

  /** The position just after `n` points laid end to end from `pos`. */
  function PointsEnd(pos: nat, hasZ: bool, hasM: bool, n: nat): (end: nat)
    ensures end >= pos + PointSize(hasZ, hasM) || (n == 0 && end == pos)
    decreases n
  {
    if n == 0 then pos else PointsEnd(pos + PointSize(hasZ, hasM), hasZ, hasM, n - 1)
  }

  /** The `n` points laid end to end from `pos`. */
  function PointsAt(data: seq<Byte>, pos: nat, order: ByteOrder, hasZ: bool, hasM: bool, n: nat)
    : (points: seq<Geometry>)
    requires PointsEnd(pos, hasZ, hasM, n) <= |data|
    ensures |points| == n
    decreases n
  {
    if n == 0 then []
    else [PointAt(data, pos, order, hasZ, hasM)] + PointsAt(data, pos + PointSize(hasZ, hasM), order, hasZ, hasM, n - 1)
  }

  // The filter.

  /** The caller's inclusion test, given the containing type (none at the top) and the geometry. */
  type GeometryFilter = (Option<GeometryType>, Geometry) -> bool

  /** No filter passes everything; otherwise the filter decides. */
  predicate Passes(filter: Option<GeometryFilter>, containingType: Option<GeometryType>, g: Geometry): (passes: bool)
    ensures filter.None? ==> passes
    ensures filter.Some? ==> (passes <==> filter.value(containingType, g))
  {
    filter.None? || filter.value(containingType, g)
  }

  /** The elements of `gs` that pass the filter, in order. */
  function Keep(filter: Option<GeometryFilter>, containingType: Option<GeometryType>, gs: seq<Geometry>)
    : (kept: seq<Geometry>)
    ensures |kept| <= |gs|
  {
    if |gs| == 0 then []
    else (if Passes(filter, containingType, gs[0]) then [gs[0]] else [])
         + Keep(filter, containingType, gs[1..])
  }

  function Max0(n: int): nat {
    if n > 0 then n else 0
  }

  // Headerless elements: points of a line, rings of a polygon.

  /**
   * `count` headerless points after `acc`: every point is read, and those the
   * filter passes with `containingType` are appended in stream order.
   */
  function ParsePoints(data: seq<Byte>, pos: nat, order: ByteOrder, filter: Option<GeometryFilter>,
                       hasZ: bool, hasM: bool, containingType: GeometryType, count: int, acc: seq<Geometry>)
    : (r: Result<Parsed<seq<Geometry>>, WkbError>)
    requires pos <= |data|
    decreases Max0(count), 1
    ensures r.Ok? ==> pos <= r.value.end <= |data|
    ensures r.Err? ==> r.error == Truncated
  {
    if count <= 0 then Ok(Parsed(acc, pos))
    else ParsePointThenRest(data, pos, order, filter, hasZ, hasM, containingType, count, acc)
  }

  /** The first of `count` remaining points, then the other `count - 1`. */
  function ParsePointThenRest(data: seq<Byte>, pos: nat, order: ByteOrder, filter: Option<GeometryFilter>,
                              hasZ: bool, hasM: bool, containingType: GeometryType, count: int, acc: seq<Geometry>)
    : (r: Result<Parsed<seq<Geometry>>, WkbError>)
    requires pos <= |data|
    requires count > 0
    decreases Max0(count), 0
    ensures r.Ok? ==> pos <= r.value.end <= |data|
    ensures r.Err? ==> r.error == Truncated
  {
    var point :- ParsePoint(data, pos, order, hasZ, hasM);
    ParsePoints(data, point.end, order, filter, hasZ, hasM, containingType, count - 1,
                if Passes(filter, Some(containingType), point.value) then acc + [point.value] else acc)
  }

  /** One step of ParsePoints: the next point, then the rest. */
  lemma ParsePointsStep(data: seq<Byte>, pos: nat, order: ByteOrder, filter: Option<GeometryFilter>,
                        hasZ: bool, hasM: bool, containingType: GeometryType, count: int, acc: seq<Geometry>)
    requires pos <= |data| && count > 0
    ensures ParsePoints(data, pos, order, filter, hasZ, hasM, containingType, count, acc)
         == match ParsePoint(data, pos, order, hasZ, hasM)
            case Err(e) => Err(e)
            case Ok(point) =>
              ParsePoints(data, point.end, order, filter, hasZ, hasM, containingType, count - 1,
                          if Passes(filter, Some(containingType), point.value) then acc + [point.value] else acc)
  {
  }

  predicate IsPointListType(t: GeometryType) {
    t == LINESTRING || t == CIRCULARSTRING
  }

  /** A line string or circular string body: a signed point count, then the points. */
  function ParsePointList(data: seq<Byte>, pos: nat, order: ByteOrder, filter: Option<GeometryFilter>,
                          hasZ: bool, hasM: bool, t: GeometryType)
    : (r: Result<Parsed<Geometry>, WkbError>)
    requires pos <= |data|
    requires IsPointListType(t)
    ensures r.Ok? ==> pos + 4 <= r.value.end <= |data|
    ensures r.Err? ==> r.error == Truncated
  {
    var count :- ReadIntAt(data, pos, order);
    var points :- ParsePoints(data, count.end, order, filter, hasZ, hasM, t, count.value, []);
    Ok(Parsed(if t == LINESTRING then LineString(hasZ, hasM, points.value)
              else CircularString(hasZ, hasM, points.value), points.end))
  }

  /** Every element is a well-formed line string with the given flags: the rings of a polygon. */
  predicate RingsWith(hasZ: bool, hasM: bool, rings: seq<Geometry>) {
    forall r <- rings :: r.LineString? && r.hasZ == hasZ && r.hasM == hasM && WellFormed(r)
  }

  /**
   * `count` headerless rings after `acc`: each ring is read as a line string
   * (its points filtered with LINESTRING), and the rings the filter passes
   * with `containingType` are appended in stream order.
   */
  function ParseRings(data: seq<Byte>, pos: nat, order: ByteOrder, filter: Option<GeometryFilter>,
                      hasZ: bool, hasM: bool, containingType: GeometryType, count: int, acc: seq<Geometry>)
    : (r: Result<Parsed<seq<Geometry>>, WkbError>)
    requires pos <= |data|
    decreases Max0(count), 1
    ensures r.Ok? ==> pos <= r.value.end <= |data|
    ensures r.Err? ==> r.error == Truncated
  {
    if count <= 0 then Ok(Parsed(acc, pos))
    else ParseRingThenRest(data, pos, order, filter, hasZ, hasM, containingType, count, acc)
  }

  /** The first of `count` remaining rings, then the other `count - 1`. */
  function ParseRingThenRest(data: seq<Byte>, pos: nat, order: ByteOrder, filter: Option<GeometryFilter>,
                             hasZ: bool, hasM: bool, containingType: GeometryType, count: int, acc: seq<Geometry>)
    : (r: Result<Parsed<seq<Geometry>>, WkbError>)
    requires pos <= |data|
    requires count > 0
    decreases Max0(count), 0
    ensures r.Ok? ==> pos <= r.value.end <= |data|
    ensures r.Err? ==> r.error == Truncated
  {
    var ring :- ParsePointList(data, pos, order, filter, hasZ, hasM, LINESTRING);
    ParseRings(data, ring.end, order, filter, hasZ, hasM, containingType, count - 1,
               if Passes(filter, Some(containingType), ring.value) then acc + [ring.value] else acc)
  }

  /** One step of ParseRings: the next ring, then the rest. */
  lemma ParseRingsStep(data: seq<Byte>, pos: nat, order: ByteOrder, filter: Option<GeometryFilter>,
                       hasZ: bool, hasM: bool, containingType: GeometryType, count: int, acc: seq<Geometry>)
    requires pos <= |data| && count > 0
    ensures ParseRings(data, pos, order, filter, hasZ, hasM, containingType, count, acc)
         == match ParsePointList(data, pos, order, filter, hasZ, hasM, LINESTRING)
            case Err(e) => Err(e)
            case Ok(ring) =>
              ParseRings(data, ring.end, order, filter, hasZ, hasM, containingType, count - 1,
                         if Passes(filter, Some(containingType), ring.value) then acc + [ring.value] else acc)
  {
  }

  predicate IsRingListType(t: GeometryType) {
    t == POLYGON || t == TRIANGLE
  }

  /** A polygon or triangle body: a signed ring count, then the rings. */
  function ParseRingList(data: seq<Byte>, pos: nat, order: ByteOrder, filter: Option<GeometryFilter>,
                         hasZ: bool, hasM: bool, t: GeometryType)
    : (r: Result<Parsed<Geometry>, WkbError>)
    requires pos <= |data|
    requires IsRingListType(t)
    ensures r.Ok? ==> pos + 4 <= r.value.end <= |data|
    ensures r.Err? ==> r.error == Truncated
  {
    var count :- ReadIntAt(data, pos, order);
    var rings :- ParseRings(data, count.end, order, filter, hasZ, hasM, t, count.value, []);
    Ok(Parsed(if t == POLYGON then Polygon(hasZ, hasM, rings.value)
              else Triangle(hasZ, hasM, rings.value), rings.end))
  }

  // Full geometries, with a header each; collections recurse into them.

  /** The class a header's type decodes to: MULTICURVE and MULTISURFACE become a plain collection. */
  function DecodedType(t: GeometryType): GeometryType {
    if t == MULTICURVE || t == MULTISURFACE then GEOMETRYCOLLECTION else t
  }

  /**
   * A full geometry at `pos`: its header, its body in the byte order the header
   * selects, then the filter with `containingType` (a rejected geometry is
   * absent, not an error) and, for a present geometry, the expected class.
   */
  function ParseGeometry(data: seq<Byte>, pos: nat, filter: Option<GeometryFilter>,
                         containingType: Option<GeometryType>, expectedType: Option<GeometryType>)
    : (r: Result<Parsed<Option<Geometry>>, WkbError>)
    requires pos <= |data|
    decreases |data| - pos, 0
    ensures r.Ok? ==> pos + 5 <= r.value.end <= |data|
  {
    var header :- ParseGeometryType(data, pos);
    var body :- ParseBody(data, header.end, header.value, filter);
    var geometry := if Passes(filter, containingType, body.value) then Some(body.value) else None;
    if expectedType.Some? && geometry.Some? && !IsAssignable(expectedType.value, TypeOf(body.value)) then
      Err(TypeMismatch(expectedType.value, TypeOf(body.value)))
    else
      Ok(Parsed(geometry, body.end))
  }

  /** The body of a geometry whose header has been read, dispatched on the header's type. */
  function ParseBody(data: seq<Byte>, pos: nat, header: Header, filter: Option<GeometryFilter>)
    : (r: Result<Parsed<Geometry>, WkbError>)
    requires pos <= |data|
    decreases |data| - pos, 4
    ensures r.Ok? ==> pos <= r.value.end <= |data|
  {
    var order, hasZ, hasM := header.byteOrder, header.info.hasZ, header.info.hasM;
    match header.info.geometryType
    case GEOMETRY => Err(AbstractType(GEOMETRY))
    case CURVE => Err(AbstractType(CURVE))
    case SURFACE => Err(AbstractType(SURFACE))
    case POINT => ParsePoint(data, pos, order, hasZ, hasM)
    case LINESTRING => ParsePointList(data, pos, order, filter, hasZ, hasM, LINESTRING)
    case CIRCULARSTRING => ParsePointList(data, pos, order, filter, hasZ, hasM, CIRCULARSTRING)
    case POLYGON => ParseRingList(data, pos, order, filter, hasZ, hasM, POLYGON)
    case TRIANGLE => ParseRingList(data, pos, order, filter, hasZ, hasM, TRIANGLE)
    case MULTIPOINT => ParseCollection(data, pos, order, filter, hasZ, hasM, MULTIPOINT)
    case MULTILINESTRING => ParseCollection(data, pos, order, filter, hasZ, hasM, MULTILINESTRING)
    case MULTIPOLYGON => ParseCollection(data, pos, order, filter, hasZ, hasM, MULTIPOLYGON)
    case GEOMETRYCOLLECTION => ParseCollection(data, pos, order, filter, hasZ, hasM, GEOMETRYCOLLECTION)
    case MULTICURVE => ParseCollection(data, pos, order, filter, hasZ, hasM, GEOMETRYCOLLECTION)
    case MULTISURFACE => ParseCollection(data, pos, order, filter, hasZ, hasM, GEOMETRYCOLLECTION)
    case COMPOUNDCURVE => ParseCollection(data, pos, order, filter, hasZ, hasM, COMPOUNDCURVE)
    case CURVEPOLYGON => ParseCollection(data, pos, order, filter, hasZ, hasM, CURVEPOLYGON)
    case POLYHEDRALSURFACE => ParseCollection(data, pos, order, filter, hasZ, hasM, POLYHEDRALSURFACE)
    case TIN => ParseCollection(data, pos, order, filter, hasZ, hasM, TIN)
  }

  /** A collection body: a signed count, then that many full geometries of its element class. */
  function ParseCollection(data: seq<Byte>, pos: nat, order: ByteOrder, filter: Option<GeometryFilter>,
                           hasZ: bool, hasM: bool, t: GeometryType)
    : (r: Result<Parsed<Geometry>, WkbError>)
    requires pos <= |data|
    requires IsCollectionType(t)
    decreases |data| - pos, 3
    ensures r.Ok? ==> pos + 4 <= r.value.end <= |data|
  {
    var count :- ReadIntAt(data, pos, order);
    var elements :- ParseChildren(data, count.end, filter, t, ElementType(t), count.value, []);
    Ok(Parsed(Collection(t, hasZ, hasM, elements.value), elements.end))
  }

  /**
   * `count` full geometries after `acc`, each decoded with containing type
   * `containingType` and expected class `expectedType`; absent (filtered)
   * ones are skipped and the rest appended in stream order.
   */
  function ParseChildren(data: seq<Byte>, pos: nat, filter: Option<GeometryFilter>,
                         containingType: GeometryType, expectedType: GeometryType,
                         count: int, acc: seq<Geometry>)
    : (r: Result<Parsed<seq<Geometry>>, WkbError>)
    requires pos <= |data|
    decreases |data| - pos, 2
    ensures r.Ok? ==> pos <= r.value.end <= |data|
  {
    if count <= 0 then Ok(Parsed(acc, pos))
    else
      match ParseChild(data, pos, filter, containingType, expectedType, acc)
      case Err(e) => Err(e)
      case Ok(next) => ParseChildren(data, next.end, filter, containingType, expectedType, count - 1, next.value)
  }

  /** One element of a collection: `acc` with the next geometry appended when it is present. */
  function ParseChild(data: seq<Byte>, pos: nat, filter: Option<GeometryFilter>,
                      containingType: GeometryType, expectedType: GeometryType, acc: seq<Geometry>)
    : (r: Result<Parsed<seq<Geometry>>, WkbError>)
    requires pos <= |data|
    decreases |data| - pos, 1
    ensures r.Ok? ==> pos + 5 <= r.value.end <= |data|
  {
    var element :- ParseGeometry(data, pos, filter, Some(containingType), Some(expectedType));
    Ok(Parsed(if element.value.Some? then acc + [element.value.value] else acc, element.end))
  }

  /** One step of ParseChildren: the next child, then the rest. */
  lemma ParseChildrenStep(data: seq<Byte>, pos: nat, filter: Option<GeometryFilter>,
                          containingType: GeometryType, expectedType: GeometryType,
                          count: int, acc: seq<Geometry>)
    requires pos <= |data| && count > 0
    ensures ParseChildren(data, pos, filter, containingType, expectedType, count, acc)
         == match ParseChild(data, pos, filter, containingType, expectedType, acc)
            case Err(e) => Err(e)
            case Ok(next) => ParseChildren(data, next.end, filter, containingType, expectedType, count - 1, next.value)
  {
  }
}
