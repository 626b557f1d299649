/**
 * What the decoder guarantees, proved about the functions of WkbDecoding and
 * so, through their contracts, about the methods of GeometryReader: the
 * header layout and its errors, the point layout, the headerless lists and
 * the shape of every geometry the decoder returns.
 */
module WkbProperties {

  import opened Wrappers
  import opened GeometryTypes
  import opened WkbErrors
  import opened GeometryCodes
  import opened ByteReader
  import opened Geometries
  import opened WkbDecoding

  // Headers.

  /**
   * A header is a marker byte, 0 for big-endian and anything else for
   * little-endian, then a four-byte type code read in the order it selects.
   */
  lemma HeaderLayout(data: seq<Byte>, pos: nat)
    requires pos + 5 <= |data|
    ensures var order := if data[pos] == 0 then BigEndian else LittleEndian;
      ReadUnsignedIntAt(data, pos + 1, order).Ok?
      && ReadUnsignedIntAt(data, pos + 1, order).value.value == UIntAt(data, pos + 1, 4, order)
      && ParseGeometryType(data, pos)
         == match ResolveTypeCode(ReadUnsignedIntAt(data, pos + 1, order).value.value)
            case Ok(info) => Ok(Parsed(Header(order, info), pos + 5))
            case Err(e) => Err(e)
  {
  }

  /**
   * The legacy 2.5D bit on a code below it adds Z and nothing else: the type,
   * the M flag and every error are those of the code without the bit.
   */
  lemma LegacyBitOnlyAddsZ(code: UInt32)
    requires 0 < code < WKB25D
    ensures ResolveTypeCode(code + WKB25D)
         == match ResolveTypeCode(code)
            case Ok(info) => Ok(info.(hasZ := true))
            case Err(e) => Err(e)
  {
    var mode := GetGeometryMode(code);
    assert HasZ(code).Err? <==> HasM(code).Err?;
  }

  /**
   * The 2.5D bit and the ISO Z band give the same type and flags. GEOMETRY
   * is the exception: its 2.5D code is the bare bit, which is not above it.
   */
  lemma LegacyAndIsoZAgree(t: GeometryType)
    requires t != GEOMETRY
    ensures var legacy, iso := ResolveTypeCode(BaseCode(t) + WKB25D), ResolveTypeCode(GetCode(t, true, false));
      legacy.Ok? && iso.Ok?
      && legacy.value.geometryType == iso.value.geometryType == t
      && legacy.value.hasZ && iso.value.hasZ
      && !legacy.value.hasM && !iso.value.hasM
  {
    CodeResolvesBack(t, false, false);
    CodeResolvesBack(t, true, false);
  }

  /** Every code a writer produces resolves back to its type and flags. */
  lemma WrittenCodeResolves(t: GeometryType, hasZ: bool, hasM: bool)
    ensures ResolveTypeCode(GetCode(t, hasZ, hasM)) == Ok(GeometryTypeInfo(GetCode(t, hasZ, hasM), t, hasZ, hasM))
  {
    CodeResolvesBack(t, hasZ, hasM);
  }

  /** A code without the 2.5D bit resolves only if it is the writer's code for what it resolves to. */
  lemma ResolvedCodeIsWritten(raw: UInt32)
    requires raw <= WKB25D && ResolveTypeCode(raw).Ok?
    ensures var info := ResolveTypeCode(raw).value;
      raw == GetCode(info.geometryType, info.hasZ, info.hasM)
  {
    ResolvedCodeIsCanonical(raw);
  }

  /**
   * A short header, an unknown code or an abstract type is an error and no
   * geometry: a complete header that does not resolve is an unsupported
   * code, and GEOMETRY, CURVE and SURFACE have no class to decode into.
   */
  lemma HeaderErrors(data: seq<Byte>, pos: nat, filter: Option<GeometryFilter>,
                     containingType: Option<GeometryType>, expectedType: Option<GeometryType>)
    requires pos <= |data|
    ensures pos + 5 > |data| ==> ParseGeometry(data, pos, filter, containingType, expectedType) == Err(Truncated)
    ensures ParseGeometryType(data, pos).Err?
        ==> ParseGeometry(data, pos, filter, containingType, expectedType) == Err(ParseGeometryType(data, pos).error)
    ensures pos + 5 <= |data| && ParseGeometryType(data, pos).Err?
        ==> ParseGeometry(data, pos, filter, containingType, expectedType).Err?
            && ParseGeometry(data, pos, filter, containingType, expectedType).error.UnsupportedCode?
    ensures ParseGeometryType(data, pos).Ok? && IsAbstract(ParseGeometryType(data, pos).value.value.info.geometryType)
        ==> ParseGeometry(data, pos, filter, containingType, expectedType)
            == Err(AbstractType(ParseGeometryType(data, pos).value.value.info.geometryType))
  {
  }

  /**
   * After the body, the filter runs first: a geometry it rejects is absent
   * (not an error) and is never checked against the expected class; a
   * geometry it keeps is an error exactly when the expected class does not
   * accept it.
   */
  lemma FilterAndExpectedType(data: seq<Byte>, pos: nat, filter: Option<GeometryFilter>,
                              containingType: Option<GeometryType>, expectedType: Option<GeometryType>)
    requires pos <= |data| && ParseGeometryType(data, pos).Ok?
    requires ParseBody(data, pos + 5, ParseGeometryType(data, pos).value.value, filter).Ok?
    ensures var body := ParseBody(data, pos + 5, ParseGeometryType(data, pos).value.value, filter).value;
      var r := ParseGeometry(data, pos, filter, containingType, expectedType);
      && (!Passes(filter, containingType, body.value) ==> r == Ok(Parsed(None, body.end)))
      && (Passes(filter, containingType, body.value) && expectedType.Some?
          && !IsAssignable(expectedType.value, TypeOf(body.value))
          ==> r == Err(TypeMismatch(expectedType.value, TypeOf(body.value))))
      && (Passes(filter, containingType, body.value)
          && (expectedType.None? || IsAssignable(expectedType.value, TypeOf(body.value)))
          ==> r == Ok(Parsed(Some(body.value), body.end)))
  {
  }

  // Points.

  /**
   * A point is x then y, then z only with Z and m only with M: it takes
   * exactly PointSize bytes and fails only when fewer remain.
   */
  lemma PointLayout(data: seq<Byte>, pos: nat, order: ByteOrder, hasZ: bool, hasM: bool)
    ensures ParsePoint(data, pos, order, hasZ, hasM)
         == if pos + PointSize(hasZ, hasM) <= |data|
            then Ok(Parsed(PointAt(data, pos, order, hasZ, hasM), pos + PointSize(hasZ, hasM)))
            else Err(Truncated)
  {
  }

  // The filter.

  /** The filter keeps exactly the elements it passes. */
  lemma {:induction false} KeepMembers(filter: Option<GeometryFilter>, containingType: Option<GeometryType>,
                                       gs: seq<Geometry>, g: Geometry)
    ensures g in Keep(filter, containingType, gs) <==> g in gs && Passes(filter, containingType, g)
  {
    if |gs| > 0 {
      KeepMembers(filter, containingType, gs[1..], g);
      assert gs == [gs[0]] + gs[1..];
    }
  }

  /** With no filter nothing is dropped. */
  lemma {:induction false} KeepWithoutFilter(containingType: Option<GeometryType>, gs: seq<Geometry>)
    ensures Keep(None, containingType, gs) == gs
  {
    if |gs| > 0 {
      KeepWithoutFilter(containingType, gs[1..]);
      assert gs == [gs[0]] + gs[1..];
    }
  }

  /** Filtering a concatenation filters each part, in order. */
  lemma {:induction false} KeepAppend(filter: Option<GeometryFilter>, containingType: Option<GeometryType>,
                                      gs: seq<Geometry>, hs: seq<Geometry>)
    ensures Keep(filter, containingType, gs + hs) == Keep(filter, containingType, gs) + Keep(filter, containingType, hs)
  {
    if |gs| > 0 {
      KeepAppend(filter, containingType, gs[1..], hs);
      assert (gs + hs)[1..] == gs[1..] + hs;
    } else {
      assert gs + hs == hs;
    }
  }

  /** `n` points of PointSize bytes each end `n` times that many bytes on. */
  lemma {:induction false} PointsEndIsProduct(pos: nat, hasZ: bool, hasM: bool, n: nat)
    ensures PointsEnd(pos, hasZ, hasM, n) == pos + n * PointSize(hasZ, hasM)
    decreases n
  {
    if n > 0 {
      PointsEndIsProduct(pos + PointSize(hasZ, hasM), hasZ, hasM, n - 1);
      assert n * PointSize(hasZ, hasM) == PointSize(hasZ, hasM) + (n - 1) * PointSize(hasZ, hasM);
    }
  }

  /** The first of `count > 0` points is PointAt, kept when the filter passes it; then the rest. */
  lemma ParsePointsFirst(data: seq<Byte>, pos: nat, order: ByteOrder, filter: Option<GeometryFilter>,
                         hasZ: bool, hasM: bool, containingType: GeometryType, count: int, acc: seq<Geometry>)
    requires pos <= |data| && count > 0
    ensures ParsePoints(data, pos, order, filter, hasZ, hasM, containingType, count, acc)
         == if pos + PointSize(hasZ, hasM) <= |data|
            then
              var p := PointAt(data, pos, order, hasZ, hasM);
              ParsePoints(data, pos + PointSize(hasZ, hasM), order, filter, hasZ, hasM, containingType, count - 1,
                          if Passes(filter, Some(containingType), p) then acc + [p] else acc)
            else Err(Truncated)
  {
    ParsePointsStep(data, pos, order, filter, hasZ, hasM, containingType, count, acc);
    PointLayout(data, pos, order, hasZ, hasM);
  }

  /**
   * `count` headerless points always consume all `count` of them (none for a
   * count of zero or less), fail only when the buffer is too short, and keep
   * exactly the points the filter passes, in stream order.
   */
  lemma ParsePointsReads(data: seq<Byte>, pos: nat, order: ByteOrder, filter: Option<GeometryFilter>,
                         hasZ: bool, hasM: bool, containingType: GeometryType, count: int, acc: seq<Geometry>)
    requires pos <= |data|
    ensures var end := PointsEnd(pos, hasZ, hasM, Max0(count));
      ParsePoints(data, pos, order, filter, hasZ, hasM, containingType, count, acc)
      == if end <= |data|
         then Ok(Parsed(acc + Keep(filter, Some(containingType), PointsAt(data, pos, order, hasZ, hasM, Max0(count))), end))
         else Err(Truncated)
  {
    if count <= 0 {
      assert acc + [] == acc;
    } else if PointsEnd(pos, hasZ, hasM, count) <= |data| {
      PointsFit(data, pos, order, filter, hasZ, hasM, containingType, count, acc);
    } else {
      PointsOverrun(data, pos, order, filter, hasZ, hasM, containingType, count, acc);
    }
  }

  /** `n` points that fit are all read, and the filter picks among them. */
  lemma {:induction false} PointsFit(data: seq<Byte>, pos: nat, order: ByteOrder, filter: Option<GeometryFilter>,
                                     hasZ: bool, hasM: bool, containingType: GeometryType, n: nat, acc: seq<Geometry>)
    requires PointsEnd(pos, hasZ, hasM, n) <= |data|
    decreases n
    ensures ParsePoints(data, pos, order, filter, hasZ, hasM, containingType, n, acc)
         == Ok(Parsed(acc + Keep(filter, Some(containingType), PointsAt(data, pos, order, hasZ, hasM, n)),
                      PointsEnd(pos, hasZ, hasM, n)))
  {
    if n > 0 {
      var size := PointSize(hasZ, hasM);
      ParsePointsFirst(data, pos, order, filter, hasZ, hasM, containingType, n, acc);
      var p := PointAt(data, pos, order, hasZ, hasM);
      var next := if Passes(filter, Some(containingType), p) then acc + [p] else acc;
      PointsFit(data, pos + size, order, filter, hasZ, hasM, containingType, n - 1, next);
      KeepFirst(filter, Some(containingType), acc, p, PointsAt(data, pos + size, order, hasZ, hasM, n - 1));
    } else {
      assert acc + [] == acc;
    }
  }

  /** `n` points that overrun the buffer are a truncation error. */
  lemma {:induction false} PointsOverrun(data: seq<Byte>, pos: nat, order: ByteOrder, filter: Option<GeometryFilter>,
                                         hasZ: bool, hasM: bool, containingType: GeometryType, n: nat, acc: seq<Geometry>)
    requires pos <= |data| < PointsEnd(pos, hasZ, hasM, n)
    decreases n
    ensures ParsePoints(data, pos, order, filter, hasZ, hasM, containingType, n, acc) == Err(Truncated)
  {
    var size := PointSize(hasZ, hasM);
    ParsePointsFirst(data, pos, order, filter, hasZ, hasM, containingType, n, acc);
    if pos + size <= |data| {
      var p := PointAt(data, pos, order, hasZ, hasM);
      PointsOverrun(data, pos + size, order, filter, hasZ, hasM, containingType, n - 1,
                    if Passes(filter, Some(containingType), p) then acc + [p] else acc);
    }
  }

  /** Appending the first kept element, then the rest kept, is keeping the lot. */
  lemma KeepFirst(filter: Option<GeometryFilter>, containingType: Option<GeometryType>,
                  acc: seq<Geometry>, g: Geometry, rest: seq<Geometry>)
    ensures (if Passes(filter, containingType, g) then acc + [g] else acc) + Keep(filter, containingType, rest)
         == acc + Keep(filter, containingType, [g] + rest)
  {
    KeepAppend(filter, containingType, [g], rest);
    assert [g][1..] == [];
  }

  /** Every point of PointsAt carries the line's own flags and exactly the coordinates they promise. */
  lemma {:induction false} PointsAtWith(data: seq<Byte>, pos: nat, order: ByteOrder, hasZ: bool, hasM: bool, n: nat)
    requires PointsEnd(pos, hasZ, hasM, n) <= |data|
    ensures PointsWith(hasZ, hasM, PointsAt(data, pos, order, hasZ, hasM, n))
    decreases n
  {
    if n > 0 {
      PointsAtWith(data, pos + PointSize(hasZ, hasM), order, hasZ, hasM, n - 1);
    }
  }
}
