/**
 * The type-code table of WKB: a base code 0..17 for the geometry type plus
 * an ISO SQL/MM dimension offset of 0, 1000 (Z), 2000 (M) or 3000 (ZM).
 * The reader calls this table but its code is not part of this model; it is
 * written here from the standard, with Java's truncating `%` and `/`.
 */
module GeometryCodes {

  import opened Wrappers
  import opened GeometryTypes
  import opened WkbErrors

  /** Java's `%` by a positive divisor: the sign follows the dividend. */
  function JavaRem(a: int, d: int): int
    requires d > 0
  {
    if a >= 0 then a % d else -((-a) % d)
  }

  /** Java's `/` by a positive divisor: rounds toward zero. */
  function JavaDiv(a: int, d: int): int
    requires d > 0
  {
    if a >= 0 then a / d else -((-a) / d)
  }

  /** The geometry type of each base code of section 8.2 of OGC 06-103r4 and ISO 13249-3. */
  function TypeOfBase(base: int): Option<GeometryType> {
    match base
    case 0 => Some(GEOMETRY)
    case 1 => Some(POINT)
    case 2 => Some(LINESTRING)
    case 3 => Some(POLYGON)
    case 4 => Some(MULTIPOINT)
    case 5 => Some(MULTILINESTRING)
    case 6 => Some(MULTIPOLYGON)
    case 7 => Some(GEOMETRYCOLLECTION)
    case 8 => Some(CIRCULARSTRING)
    case 9 => Some(COMPOUNDCURVE)
    case 10 => Some(CURVEPOLYGON)
    case 11 => Some(MULTICURVE)
    case 12 => Some(MULTISURFACE)
    case 13 => Some(CURVE)
    case 14 => Some(SURFACE)
    case 15 => Some(POLYHEDRALSURFACE)
    case 16 => Some(TIN)
    case 17 => Some(TRIANGLE)
    case _ => None
  }

  /** The base code of each geometry type: the writer's side of TypeOfBase. */
  function BaseCode(t: GeometryType): nat {
    match t
    case GEOMETRY => 0
    case POINT => 1
    case LINESTRING => 2
    case POLYGON => 3
    case MULTIPOINT => 4
    case MULTILINESTRING => 5
    case MULTIPOLYGON => 6
    case GEOMETRYCOLLECTION => 7
    case CIRCULARSTRING => 8
    case COMPOUNDCURVE => 9
    case CURVEPOLYGON => 10
    case MULTICURVE => 11
    case MULTISURFACE => 12
    case CURVE => 13
    case SURFACE => 14
    case POLYHEDRALSURFACE => 15
    case TIN => 16
    case TRIANGLE => 17
  }

  function GetGeometryType(code: int): Result<GeometryType, WkbError> {
    match TypeOfBase(JavaRem(code, 1000))
    case Some(t) => Ok(t)
    case None => Err(UnsupportedCode(code))
  }

  /** The dimension band: 0 plain, 1 Z, 2 M, 3 ZM. */
  function GetGeometryMode(code: int): int {
    JavaDiv(code, 1000)
  }

  function HasZ(code: int): Result<bool, WkbError> {
    var mode := GetGeometryMode(code);
    if mode == 0 || mode == 2 then Ok(false)
    else if mode == 1 || mode == 3 then Ok(true)
    else Err(UnsupportedCode(code))
  }

  function HasM(code: int): Result<bool, WkbError> {
    var mode := GetGeometryMode(code);
    if mode == 0 || mode == 1 then Ok(false)
    else if mode == 2 || mode == 3 then Ok(true)
    else Err(UnsupportedCode(code))
  }

  /** The code a writer puts in a header for a type and its dimensions. */
  function GetCode(t: GeometryType, hasZ: bool, hasM: bool): nat {
    BaseCode(t) + (if hasZ then 1000 else 0) + (if hasM then 2000 else 0)
  }

  /** Every type and dimension pair resolves back from its code. */
  lemma CodeResolvesBack(t: GeometryType, hasZ: bool, hasM: bool)
    ensures GetGeometryType(GetCode(t, hasZ, hasM)) == Ok(t)
    ensures HasZ(GetCode(t, hasZ, hasM)) == Ok(hasZ)
    ensures HasM(GetCode(t, hasZ, hasM)) == Ok(hasM)
  {
    var code := GetCode(t, hasZ, hasM);
    var band := (if hasZ then 1 else 0) + (if hasM then 2 else 0);
    assert code == 1000 * band + BaseCode(t);
    assert JavaRem(code, 1000) == BaseCode(t);
    assert GetGeometryMode(code) == band;
    match t
    case GEOMETRY =>
    case POINT =>
    case LINESTRING =>
    case POLYGON =>
    case MULTIPOINT =>
    case MULTILINESTRING =>
    case MULTIPOLYGON =>
    case GEOMETRYCOLLECTION =>
    case CIRCULARSTRING =>
    case COMPOUNDCURVE =>
    case CURVEPOLYGON =>
    case MULTICURVE =>
    case MULTISURFACE =>
    case CURVE =>
    case SURFACE =>
    case POLYHEDRALSURFACE =>
    case TIN =>
    case TRIANGLE =>
  }

  /** A code that resolves is the writer's code for what it resolves to. */
  lemma ResolvedCodeIsCanonical(code: int)
    requires GetGeometryType(code).Ok? && HasZ(code).Ok? && HasM(code).Ok?
    ensures code == GetCode(GetGeometryType(code).value, HasZ(code).value, HasM(code).value)
  {
    var base := JavaRem(code, 1000);
    assert 0 <= base <= 17;
    var t := GetGeometryType(code).value;
    assert BaseCode(t) == base by {
      match base
      case 0 => case 1 => case 2 => case 3 => case 4 => case 5 =>
      case 6 => case 7 => case 8 => case 9 => case 10 => case 11 =>
      case 12 => case 13 => case 14 => case 15 => case 16 => case 17 =>
    }
  }
}
