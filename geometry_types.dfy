/**
 * The geometry type enumeration and the "is assignable from" relation of the
 * geometry object model, which the reader uses to check an expected type.
 */
module GeometryTypes {

  import opened Wrappers

  /** Every geometry type a WKB header can name, abstract ones included. */
  datatype GeometryType =
    | GEOMETRY | POINT | LINESTRING | POLYGON | MULTIPOINT | MULTILINESTRING
    | MULTIPOLYGON | GEOMETRYCOLLECTION | CIRCULARSTRING | COMPOUNDCURVE
    | CURVEPOLYGON | MULTICURVE | MULTISURFACE | CURVE | SURFACE
    | POLYHEDRALSURFACE | TIN | TRIANGLE

  /** The types that have no concrete class of their own. */
  predicate IsAbstract(t: GeometryType) {
    t == GEOMETRY || t == CURVE || t == SURFACE
  }

  /** The direct superclass of each geometry class in the object model. */
  function Supertype(t: GeometryType): (s: Option<GeometryType>)
    ensures s.Some? ==> Depth(s.value) < Depth(t)
    ensures s.None? <==> t == GEOMETRY
  {
    match t
    case GEOMETRY => None
    case POINT => Some(GEOMETRY)
    case CURVE => Some(GEOMETRY)
    case LINESTRING => Some(CURVE)
    case CIRCULARSTRING => Some(LINESTRING)
    case COMPOUNDCURVE => Some(CURVE)
    case SURFACE => Some(GEOMETRY)
    case CURVEPOLYGON => Some(SURFACE)
    case POLYGON => Some(CURVEPOLYGON)
    case TRIANGLE => Some(POLYGON)
    case POLYHEDRALSURFACE => Some(SURFACE)
    case TIN => Some(POLYHEDRALSURFACE)
    case GEOMETRYCOLLECTION => Some(GEOMETRY)
    case MULTIPOINT => Some(GEOMETRYCOLLECTION)
    case MULTICURVE => Some(GEOMETRYCOLLECTION)
    case MULTILINESTRING => Some(MULTICURVE)
    case MULTISURFACE => Some(GEOMETRYCOLLECTION)
    case MULTIPOLYGON => Some(MULTISURFACE)
  }

  /** Distance from GEOMETRY in the class tree. */
  function Depth(t: GeometryType): nat {
    match t
    case GEOMETRY => 0
    case POINT | CURVE | SURFACE | GEOMETRYCOLLECTION => 1
    case LINESTRING | COMPOUNDCURVE | CURVEPOLYGON | POLYHEDRALSURFACE
      | MULTIPOINT | MULTICURVE | MULTISURFACE => 2
    case CIRCULARSTRING | POLYGON | TIN | MULTILINESTRING | MULTIPOLYGON => 3
    case TRIANGLE => 4
  }

  /**
   * `expected` is `actual` or one of its superclasses: the model of
   * `expectedType.isAssignableFrom(geometry.getClass())`.
   */
  predicate IsAssignable(expected: GeometryType, actual: GeometryType)
    decreases Depth(actual)
  {
    expected == actual
    || (Supertype(actual).Some? && IsAssignable(expected, Supertype(actual).value))
  }

  /** The class token GEOMETRY accepts every geometry. */
  lemma {:induction false} GeometryAcceptsAll(actual: GeometryType)
    ensures IsAssignable(GEOMETRY, actual)
    decreases Depth(actual)
  {
    if actual != GEOMETRY {
      GeometryAcceptsAll(Supertype(actual).value);
    }
  }

  /** POINT, the element class of a multipoint, accepts only points. */
  lemma PointAccepts(actual: GeometryType)
    requires !IsAbstract(actual)
    ensures IsAssignable(POINT, actual) <==> actual == POINT
  {
    var s := Supertype(actual);
    if s.Some? {
      var s2 := Supertype(s.value);
      if s2.Some? {
        var s3 := Supertype(s2.value);
      }
    }
  }

  /** LINESTRING, the element class of a multilinestring and a compound curve, accepts line strings and circular strings. */
  lemma LineStringAccepts(actual: GeometryType)
    requires !IsAbstract(actual)
    ensures IsAssignable(LINESTRING, actual) <==> actual == LINESTRING || actual == CIRCULARSTRING
  {
    var s := Supertype(actual);
    if s.Some? {
      var s2 := Supertype(s.value);
      if s2.Some? {
        var s3 := Supertype(s2.value);
      }
    }
  }

  /** POLYGON, the element class of a multipolygon, a polyhedral surface and a TIN, accepts polygons and triangles. */
  lemma PolygonAccepts(actual: GeometryType)
    requires !IsAbstract(actual)
    ensures IsAssignable(POLYGON, actual) <==> actual == POLYGON || actual == TRIANGLE
  {
    var s := Supertype(actual);
    if s.Some? {
      var s2 := Supertype(s.value);
      if s2.Some? {
        var s3 := Supertype(s2.value);
      }
    }
  }

  /** CURVE, the element class of a curve polygon, accepts line strings, circular strings and compound curves. */
  lemma CurveAccepts(actual: GeometryType)
    requires !IsAbstract(actual)
    ensures IsAssignable(CURVE, actual) <==> actual == LINESTRING || actual == CIRCULARSTRING || actual == COMPOUNDCURVE
  {
    var s := Supertype(actual);
    if s.Some? {
      var s2 := Supertype(s.value);
      if s2.Some? {
        var s3 := Supertype(s2.value);
      }
    }
  }

  /** Assignability is transitive, as class inheritance is. */
  lemma {:induction false} IsAssignableTransitive(a: GeometryType, b: GeometryType, c: GeometryType)
    requires IsAssignable(a, b) && IsAssignable(b, c)
    ensures IsAssignable(a, c)
    decreases Depth(c)
  {
    if b != c {
      IsAssignableTransitive(a, b, Supertype(c).value);
    }
  }
}
