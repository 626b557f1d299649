/**
 * The geometry tree the reader produces: one constructor per concrete
 * geometry class, each carrying the hasZ/hasM flags it was created with.
 */
module Geometries {

  import opened Wrappers
  import opened GeometryTypes
  import opened ByteReader

  datatype Geometry =
    | Point(hasZ: bool, hasM: bool, x: Word64, y: Word64, z: Option<Word64>, m: Option<Word64>)
    | LineString(hasZ: bool, hasM: bool, points: seq<Geometry>)
    | CircularString(hasZ: bool, hasM: bool, points: seq<Geometry>)
    | Polygon(hasZ: bool, hasM: bool, rings: seq<Geometry>)
    | Triangle(hasZ: bool, hasM: bool, rings: seq<Geometry>)
    | CurvePolygon(hasZ: bool, hasM: bool, rings: seq<Geometry>)
    | MultiPoint(hasZ: bool, hasM: bool, points: seq<Geometry>)
    | MultiLineString(hasZ: bool, hasM: bool, lineStrings: seq<Geometry>)
    | MultiPolygon(hasZ: bool, hasM: bool, polygons: seq<Geometry>)
    | GeometryCollection(hasZ: bool, hasM: bool, geometries: seq<Geometry>)
    | CompoundCurve(hasZ: bool, hasM: bool, lineStrings: seq<Geometry>)
    | PolyhedralSurface(hasZ: bool, hasM: bool, polygons: seq<Geometry>)
    | Tin(hasZ: bool, hasM: bool, polygons: seq<Geometry>)

  /** The class of a geometry; never an abstract one. */
  function TypeOf(g: Geometry): (t: GeometryType)
    ensures !IsAbstract(t)
  {
    match g
    case Point(_, _, _, _, _, _) => POINT
    case LineString(_, _, _) => LINESTRING
    case CircularString(_, _, _) => CIRCULARSTRING
    case Polygon(_, _, _) => POLYGON
    case Triangle(_, _, _) => TRIANGLE
    case CurvePolygon(_, _, _) => CURVEPOLYGON
    case MultiPoint(_, _, _) => MULTIPOINT
    case MultiLineString(_, _, _) => MULTILINESTRING
    case MultiPolygon(_, _, _) => MULTIPOLYGON
    case GeometryCollection(_, _, _) => GEOMETRYCOLLECTION
    case CompoundCurve(_, _, _) => COMPOUNDCURVE
    case PolyhedralSurface(_, _, _) => POLYHEDRALSURFACE
    case Tin(_, _, _) => TIN
  }

  /** The containers whose elements are full geometries, each with its own header. */
  predicate IsCollectionType(t: GeometryType) {
    t in {MULTIPOINT, MULTILINESTRING, MULTIPOLYGON, GEOMETRYCOLLECTION,
          COMPOUNDCURVE, CURVEPOLYGON, POLYHEDRALSURFACE, TIN}
  }

  /** The class every element of a collection must be assignable to. */
  function ElementType(t: GeometryType): GeometryType
    requires IsCollectionType(t)
  {
    match t
    case MULTIPOINT => POINT
    case MULTILINESTRING => LINESTRING
    case COMPOUNDCURVE => LINESTRING
    case MULTIPOLYGON => POLYGON
    case POLYHEDRALSURFACE => POLYGON
    case TIN => POLYGON
    case CURVEPOLYGON => CURVE
    case GEOMETRYCOLLECTION => GEOMETRY
  }

  /** A collection of type `t` holding `elements`. */
  function Collection(t: GeometryType, hasZ: bool, hasM: bool, elements: seq<Geometry>): (g: Geometry)
    requires IsCollectionType(t)
    ensures TypeOf(g) == t && g.hasZ == hasZ && g.hasM == hasM
  {
    match t
    case MULTIPOINT => MultiPoint(hasZ, hasM, elements)
    case MULTILINESTRING => MultiLineString(hasZ, hasM, elements)
    case MULTIPOLYGON => MultiPolygon(hasZ, hasM, elements)
    case GEOMETRYCOLLECTION => GeometryCollection(hasZ, hasM, elements)
    case COMPOUNDCURVE => CompoundCurve(hasZ, hasM, elements)
    case CURVEPOLYGON => CurvePolygon(hasZ, hasM, elements)
    case POLYHEDRALSURFACE => PolyhedralSurface(hasZ, hasM, elements)
    case TIN => Tin(hasZ, hasM, elements)
  }

  /** Every element is a point with the container's own flags: the headerless points of a line. */
  predicate PointsWith(hasZ: bool, hasM: bool, points: seq<Geometry>) {
    forall p <- points :: p.Point? && p.hasZ == hasZ && p.hasM == hasM
      && p.z.Some? == hasZ && p.m.Some? == hasM
  }

  /**
   * The typing the object model's generics promise: a point has a z (an m)
   * exactly when it says so, lines hold points and polygons hold line-string
   * rings with the container's flags, and a collection holds only geometries
   * of its element class.
   */
  predicate WellFormed(g: Geometry)
    decreases g
  {
    match g
    case Point(hasZ, hasM, _, _, z, m) => z.Some? == hasZ && m.Some? == hasM
    case LineString(hasZ, hasM, points) => PointsWith(hasZ, hasM, points)
    case CircularString(hasZ, hasM, points) => PointsWith(hasZ, hasM, points)
    case Polygon(hasZ, hasM, rings) =>
      forall r <- rings :: r.LineString? && r.hasZ == hasZ && r.hasM == hasM && WellFormed(r)
    case Triangle(hasZ, hasM, rings) =>
      forall r <- rings :: r.LineString? && r.hasZ == hasZ && r.hasM == hasM && WellFormed(r)
    case CurvePolygon(_, _, rings) =>
      forall r <- rings :: IsAssignable(CURVE, TypeOf(r)) && WellFormed(r)
    case MultiPoint(_, _, points) =>
      forall p <- points :: IsAssignable(POINT, TypeOf(p)) && WellFormed(p)
    case MultiLineString(_, _, lineStrings) =>
      forall l <- lineStrings :: IsAssignable(LINESTRING, TypeOf(l)) && WellFormed(l)
    case CompoundCurve(_, _, lineStrings) =>
      forall l <- lineStrings :: IsAssignable(LINESTRING, TypeOf(l)) && WellFormed(l)
    case MultiPolygon(_, _, polygons) =>
      forall p <- polygons :: IsAssignable(POLYGON, TypeOf(p)) && WellFormed(p)
    case PolyhedralSurface(_, _, polygons) =>
      forall p <- polygons :: IsAssignable(POLYGON, TypeOf(p)) && WellFormed(p)
    case Tin(_, _, polygons) =>
      forall p <- polygons :: IsAssignable(POLYGON, TypeOf(p)) && WellFormed(p)
    case GeometryCollection(_, _, geometries) =>
      forall e <- geometries :: WellFormed(e)
  }

  /** A collection is well formed exactly when its elements fit its element class. */
  lemma CollectionWellFormed(t: GeometryType, hasZ: bool, hasM: bool, elements: seq<Geometry>)
    requires IsCollectionType(t)
    ensures WellFormed(Collection(t, hasZ, hasM, elements))
        <==> forall e <- elements :: IsAssignable(ElementType(t), TypeOf(e)) && WellFormed(e)
  {
    match t
    case GEOMETRYCOLLECTION =>
      forall e <- elements ensures IsAssignable(GEOMETRY, TypeOf(e)) {
        GeometryAcceptsAll(TypeOf(e));
      }
    case MULTIPOINT =>
    case MULTILINESTRING =>
    case MULTIPOLYGON =>
    case COMPOUNDCURVE =>
    case CURVEPOLYGON =>
    case POLYHEDRALSURFACE =>
    case TIN =>
  }
}
