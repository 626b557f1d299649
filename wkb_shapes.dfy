/**
 * The shape of what the decoder returns: lines and polygons carry their
 * header's flags and exactly the elements the filter keeps, collections hold
 * only elements of their element class, and every decoded geometry is well
 * formed, of the class its header names, and passes the filter.
 */
module WkbShapes {

  import opened Wrappers
  import opened GeometryTypes
  import opened WkbErrors
  import opened ByteReader
  import opened Geometries
  import opened WkbDecoding
  import opened WkbProperties

  /** The line of class `t` holding `points`. */
  function PointListOf(t: GeometryType, hasZ: bool, hasM: bool, points: seq<Geometry>): (g: Geometry)
    requires IsPointListType(t)
    ensures TypeOf(g) == t && g.hasZ == hasZ && g.hasM == hasM && g.points == points
  {
    if t == LINESTRING then LineString(hasZ, hasM, points) else CircularString(hasZ, hasM, points)
  }

  // Lines.

  /** A line string or circular string is first a body unfolded: the count, then the points. */
  lemma PointListSteps(data: seq<Byte>, pos: nat, order: ByteOrder, filter: Option<GeometryFilter>,
                       hasZ: bool, hasM: bool, t: GeometryType)
    requires pos + 4 <= |data| && IsPointListType(t)
    ensures ReadIntAt(data, pos, order).Ok? && ReadIntAt(data, pos, order).value.end == pos + 4
    ensures ParsePointList(data, pos, order, filter, hasZ, hasM, t)
         == match ParsePoints(data, pos + 4, order, filter, hasZ, hasM, t, ReadIntAt(data, pos, order).value.value, [])
            case Ok(points) => Ok(Parsed(PointListOf(t, hasZ, hasM, points.value), points.end))
            case Err(e) => Err(e)
  {
  }

  /**
   * A line string or circular string is a signed count and then that many
   * points: it fails when the count is cut off or the points overrun the
   * buffer, and otherwise ends after all of them and keeps the points the
   * filter passes with its own type.
   */
  lemma PointListLayout(data: seq<Byte>, pos: nat, order: ByteOrder, filter: Option<GeometryFilter>,
                        hasZ: bool, hasM: bool, t: GeometryType)
    requires pos <= |data| && IsPointListType(t)
    ensures pos + 4 > |data| ==> ParsePointList(data, pos, order, filter, hasZ, hasM, t) == Err(Truncated)
    ensures pos + 4 <= |data| ==>
      var n := Max0(ReadIntAt(data, pos, order).value.value);
      var end := PointsEnd(pos + 4, hasZ, hasM, n);
      ParsePointList(data, pos, order, filter, hasZ, hasM, t)
      == if end <= |data|
         then Ok(Parsed(PointListOf(t, hasZ, hasM, Keep(filter, Some(t), PointsAt(data, pos + 4, order, hasZ, hasM, n))), end))
         else Err(Truncated)
  {
    if pos + 4 <= |data| {
      var n := Max0(ReadIntAt(data, pos, order).value.value);
      if PointsEnd(pos + 4, hasZ, hasM, n) <= |data| {
        PointListFits(data, pos, order, filter, hasZ, hasM, t);
      } else {
        PointListOverruns(data, pos, order, filter, hasZ, hasM, t);
      }
    }
  }

  /** A line whose points run past the end of the buffer is truncated. */
  lemma PointListOverruns(data: seq<Byte>, pos: nat, order: ByteOrder, filter: Option<GeometryFilter>,
                          hasZ: bool, hasM: bool, t: GeometryType)
    requires pos + 4 <= |data| && IsPointListType(t)
    requires PointsEnd(pos + 4, hasZ, hasM, Max0(ReadIntAt(data, pos, order).value.value)) > |data|
    ensures ParsePointList(data, pos, order, filter, hasZ, hasM, t) == Err(Truncated)
  {
    PointListSteps(data, pos, order, filter, hasZ, hasM, t);
    ParsePointsReads(data, pos + 4, order, filter, hasZ, hasM, t, ReadIntAt(data, pos, order).value.value, []);
  }

  /** The points of a line that fit are all read, and the filter picks among them. */
  lemma PointListFits(data: seq<Byte>, pos: nat, order: ByteOrder, filter: Option<GeometryFilter>,
                      hasZ: bool, hasM: bool, t: GeometryType)
    requires pos + 4 <= |data| && IsPointListType(t)
    requires PointsEnd(pos + 4, hasZ, hasM, Max0(ReadIntAt(data, pos, order).value.value)) <= |data|
    ensures var n := Max0(ReadIntAt(data, pos, order).value.value);
      ParsePointList(data, pos, order, filter, hasZ, hasM, t)
      == Ok(Parsed(PointListOf(t, hasZ, hasM, Keep(filter, Some(t), PointsAt(data, pos + 4, order, hasZ, hasM, n))),
                   PointsEnd(pos + 4, hasZ, hasM, n)))
  {
    var count := ReadIntAt(data, pos, order).value.value;
    PointListSteps(data, pos, order, filter, hasZ, hasM, t);
    ParsePointsReads(data, pos + 4, order, filter, hasZ, hasM, t, count, []);
    var kept := Keep(filter, Some(t), PointsAt(data, pos + 4, order, hasZ, hasM, Max0(count)));
    assert [] + kept == kept;
  }

  /** Dropping elements keeps every remaining point's flags. */
  lemma KeepPointsWith(filter: Option<GeometryFilter>, containingType: Option<GeometryType>,
                       hasZ: bool, hasM: bool, gs: seq<Geometry>)
    requires PointsWith(hasZ, hasM, gs)
    ensures PointsWith(hasZ, hasM, Keep(filter, containingType, gs))
  {
    forall g <- Keep(filter, containingType, gs) ensures g in gs {
      KeepMembers(filter, containingType, gs, g);
    }
  }

  /**
   * A decoded line is of the header's type and flags, well formed, and
   * without a filter holds every point its count announced.
   */
  lemma PointListShape(data: seq<Byte>, pos: nat, order: ByteOrder, filter: Option<GeometryFilter>,
                       hasZ: bool, hasM: bool, t: GeometryType)
    requires pos <= |data| && IsPointListType(t)
    ensures var r := ParsePointList(data, pos, order, filter, hasZ, hasM, t);
      r.Ok? ==>
        TypeOf(r.value.value) == t && r.value.value.hasZ == hasZ && r.value.value.hasM == hasM
        && WellFormed(r.value.value)
        && (filter.None? ==> |r.value.value.points| == Max0(ReadIntAt(data, pos, order).value.value))
  {
    PointListLayout(data, pos, order, filter, hasZ, hasM, t);
    if ParsePointList(data, pos, order, filter, hasZ, hasM, t).Ok? {
      var n := Max0(ReadIntAt(data, pos, order).value.value);
      var points := PointsAt(data, pos + 4, order, hasZ, hasM, n);
      PointsAtWith(data, pos + 4, order, hasZ, hasM, n);
      KeepPointsWith(filter, Some(t), hasZ, hasM, points);
      if filter.None? {
        KeepWithoutFilter(Some(t), points);
      }
    }
  }

  // Polygons.

  /**
   * `count` rings after `acc` keep `acc` as a prefix; what they add are line
   * strings with the polygon's flags that the filter passes, and without a
   * filter there is one per ring announced.
   */
  lemma {:induction false} RingsShape(data: seq<Byte>, pos: nat, order: ByteOrder, filter: Option<GeometryFilter>,
                                      hasZ: bool, hasM: bool, containingType: GeometryType, count: int,
                                      acc: seq<Geometry>)
    requires pos <= |data|
    decreases Max0(count)
    ensures var r := ParseRings(data, pos, order, filter, hasZ, hasM, containingType, count, acc);
      r.Ok? ==>
        |acc| <= |r.value.value| && r.value.value[..|acc|] == acc
        && RingsWith(hasZ, hasM, r.value.value[|acc|..])
        && (forall ring <- r.value.value[|acc|..] :: Passes(filter, Some(containingType), ring))
        && (filter.None? ==> |r.value.value| == |acc| + Max0(count))
  {
    if count > 0 {
      ParseRingsStep(data, pos, order, filter, hasZ, hasM, containingType, count, acc);
      var first := ParsePointList(data, pos, order, filter, hasZ, hasM, LINESTRING);
      if first.Ok? {
        PointListShape(data, pos, order, filter, hasZ, hasM, LINESTRING);
        var ring := first.value.value;
        var next := if Passes(filter, Some(containingType), ring) then acc + [ring] else acc;
        assert next == acc + (if Passes(filter, Some(containingType), ring) then [ring] else []);
        RingsShape(data, first.value.end, order, filter, hasZ, hasM, containingType, count - 1, next);
        var r := ParseRings(data, pos, order, filter, hasZ, hasM, containingType, count, acc);
        if r.Ok? {
          ExtendedSuffix(acc, if Passes(filter, Some(containingType), ring) then [ring] else [], next, r.value.value);
        }
      }
    } else {
      assert acc[|acc|..] == [];
    }
  }

  /**
   * When `next` is `acc` plus at most one element and `all` extends `next`,
   * `all` extends `acc`, and what it adds to `acc` is that element and what
   * it adds to `next`.
   */
  lemma ExtendedSuffix(acc: seq<Geometry>, added: seq<Geometry>, next: seq<Geometry>, all: seq<Geometry>)
    requires next == acc + added && |added| <= 1
    requires |next| <= |all| && all[..|next|] == next
    ensures |acc| <= |all| && all[..|acc|] == acc
    ensures forall h <- all[|acc|..] :: h in added || h in all[|next|..]
  {
    assert all[|acc|..] == added + all[|next|..];
  }

  /**
   * A decoded polygon or triangle is of the header's type and flags, well
   * formed, and without a filter holds every ring its count announced.
   */
  lemma RingListShape(data: seq<Byte>, pos: nat, order: ByteOrder, filter: Option<GeometryFilter>,
                      hasZ: bool, hasM: bool, t: GeometryType)
    requires pos <= |data| && IsRingListType(t)
    ensures var r := ParseRingList(data, pos, order, filter, hasZ, hasM, t);
      r.Ok? ==>
        TypeOf(r.value.value) == t && r.value.value.hasZ == hasZ && r.value.value.hasM == hasM
        && WellFormed(r.value.value)
        && (filter.None? ==> |r.value.value.rings| == Max0(ReadIntAt(data, pos, order).value.value))
  {
    if pos + 4 <= |data| {
      var count := ReadIntAt(data, pos, order).value.value;
      RingListSteps(data, pos, order, filter, hasZ, hasM, t);
      RingsShape(data, pos + 4, order, filter, hasZ, hasM, t, count, []);
    }
  }

  /** A polygon or triangle body unfolded: the count, then the rings. */
  lemma RingListSteps(data: seq<Byte>, pos: nat, order: ByteOrder, filter: Option<GeometryFilter>,
                      hasZ: bool, hasM: bool, t: GeometryType)
    requires pos + 4 <= |data| && IsRingListType(t)
    ensures ReadIntAt(data, pos, order).Ok? && ReadIntAt(data, pos, order).value.end == pos + 4
    ensures ParseRingList(data, pos, order, filter, hasZ, hasM, t)
         == match ParseRings(data, pos + 4, order, filter, hasZ, hasM, t, ReadIntAt(data, pos, order).value.value, [])
            case Ok(rings) =>
              Ok(Parsed(if t == POLYGON then Polygon(hasZ, hasM, rings.value) else Triangle(hasZ, hasM, rings.value),
                        rings.end))
            case Err(e) => Err(e)
  {
  }

  /** The polygon or triangle of class `t` holding `ringList`. */
  function RingListOf(t: GeometryType, hasZ: bool, hasM: bool, ringList: seq<Geometry>): (g: Geometry)
    requires IsRingListType(t)
    ensures TypeOf(g) == t && g.hasZ == hasZ && g.hasM == hasM && g.rings == ringList
  {
    if t == POLYGON then Polygon(hasZ, hasM, ringList) else Triangle(hasZ, hasM, ringList)
  }

  /**
   * `count` rings read one after another, none of them dropped: each is a
   * headerless line string (its own points filtered as a line string's).
   */
  function RingsAll(data: seq<Byte>, pos: nat, order: ByteOrder, filter: Option<GeometryFilter>,
                    hasZ: bool, hasM: bool, count: int): (r: Result<Parsed<seq<Geometry>>, WkbError>)
    requires pos <= |data|
    decreases Max0(count)
    ensures r.Ok? ==> pos <= r.value.end <= |data| && |r.value.value| == Max0(count)
  {
    if count <= 0 then Ok(Parsed([], pos))
    else
      match ParsePointList(data, pos, order, filter, hasZ, hasM, LINESTRING)
      case Err(e) => Err(e)
      case Ok(ring) =>
        match RingsAll(data, ring.end, order, filter, hasZ, hasM, count - 1)
        case Err(e) => Err(e)
        case Ok(rest) => Ok(Parsed([ring.value] + rest.value, rest.end))
  }

  /**
   * The ring loop reads every ring announced and fails exactly when one of
   * them does; it appends to `acc` exactly the rings the filter passes with
   * `containingType`, in stream order, and ends after the last ring.
   */
  lemma {:induction false} RingsKeep(data: seq<Byte>, pos: nat, order: ByteOrder, filter: Option<GeometryFilter>,
                                     hasZ: bool, hasM: bool, containingType: GeometryType, count: int,
                                     acc: seq<Geometry>)
    requires pos <= |data|
    decreases Max0(count)
    ensures ParseRings(data, pos, order, filter, hasZ, hasM, containingType, count, acc)
         == match RingsAll(data, pos, order, filter, hasZ, hasM, count)
            case Ok(rs) => Ok(Parsed(acc + Keep(filter, Some(containingType), rs.value), rs.end))
            case Err(e) => Err(e)
  {
    if count > 0 {
      ParseRingsStep(data, pos, order, filter, hasZ, hasM, containingType, count, acc);
      var first := ParsePointList(data, pos, order, filter, hasZ, hasM, LINESTRING);
      if first.Ok? {
        var ring := first.value.value;
        var next := if Passes(filter, Some(containingType), ring) then acc + [ring] else acc;
        RingsKeep(data, first.value.end, order, filter, hasZ, hasM, containingType, count - 1, next);
        var rest := RingsAll(data, first.value.end, order, filter, hasZ, hasM, count - 1);
        if rest.Ok? {
          KeepFirst(filter, Some(containingType), acc, ring, rest.value.value);
        }
      }
    } else {
      assert acc + Keep(filter, Some(containingType), []) == acc;
    }
  }

  /**
   * A polygon or triangle is a signed count and then that many rings: it
   * fails when the count is cut off or a ring fails, and otherwise holds
   * exactly the rings the filter passes with its own type, in stream order,
   * and ends after the last ring.
   */
  lemma RingListLayout(data: seq<Byte>, pos: nat, order: ByteOrder, filter: Option<GeometryFilter>,
                       hasZ: bool, hasM: bool, t: GeometryType)
    requires pos <= |data| && IsRingListType(t)
    ensures pos + 4 > |data| ==> ParseRingList(data, pos, order, filter, hasZ, hasM, t) == Err(Truncated)
    ensures pos + 4 <= |data| ==>
      var rings := RingsAll(data, pos + 4, order, filter, hasZ, hasM, ReadIntAt(data, pos, order).value.value);
      ParseRingList(data, pos, order, filter, hasZ, hasM, t)
      == if rings.Ok? then Ok(Parsed(RingListOf(t, hasZ, hasM, Keep(filter, Some(t), rings.value.value)), rings.value.end))
         else Err(rings.error)
  {
    if pos + 4 <= |data| {
      var count := ReadIntAt(data, pos, order).value.value;
      RingListSteps(data, pos, order, filter, hasZ, hasM, t);
      RingsKeep(data, pos + 4, order, filter, hasZ, hasM, t, count, []);
      var rings := RingsAll(data, pos + 4, order, filter, hasZ, hasM, count);
      if rings.Ok? {
        assert [] + Keep(filter, Some(t), rings.value.value) == Keep(filter, Some(t), rings.value.value);
      }
    }
  }

  // Full geometries.

  /**
   * A geometry the decoder returns is well formed, of the class its header
   * names (a multicurve or multisurface as a plain collection) with the
   * header's flags, passes the filter and fits the expected class; without a
   * filter a decode that succeeds always returns a geometry.
   */
  lemma {:induction false} GeometryShape(data: seq<Byte>, pos: nat, filter: Option<GeometryFilter>,
                                         containingType: Option<GeometryType>, expectedType: Option<GeometryType>)
    requires pos <= |data|
    decreases |data| - pos, 0
    ensures var r := ParseGeometry(data, pos, filter, containingType, expectedType);
      r.Ok? ==>
        ParseGeometryType(data, pos).Ok?
        && (filter.None? ==> r.value.value.Some?)
        && (r.value.value.Some? ==>
              var g, info := r.value.value.value, ParseGeometryType(data, pos).value.value.info;
              WellFormed(g) && Passes(filter, containingType, g)
              && (expectedType.Some? ==> IsAssignable(expectedType.value, TypeOf(g)))
              && TypeOf(g) == DecodedType(info.geometryType) && g.hasZ == info.hasZ && g.hasM == info.hasM)
  {
    var header := ParseGeometryType(data, pos);
    if header.Ok? {
      BodyShape(data, header.value.end, header.value.value, filter);
    }
  }

  /** A decoded body is well formed, of the class its header names and with the header's flags. */
  lemma {:induction false} BodyShape(data: seq<Byte>, pos: nat, header: Header, filter: Option<GeometryFilter>)
    requires pos <= |data|
    decreases |data| - pos, 5
    ensures var r := ParseBody(data, pos, header, filter);
      r.Ok? ==>
        WellFormed(r.value.value) && TypeOf(r.value.value) == DecodedType(header.info.geometryType)
        && r.value.value.hasZ == header.info.hasZ && r.value.value.hasM == header.info.hasM
  {
    var t, order, hasZ, hasM := header.info.geometryType, header.byteOrder, header.info.hasZ, header.info.hasM;
    BodyDispatch(data, pos, header, filter);
    if t == POINT {
      PointLayout(data, pos, order, hasZ, hasM);
    } else if IsPointListType(t) {
      PointListShape(data, pos, order, filter, hasZ, hasM, t);
    } else if IsRingListType(t) {
      RingListShape(data, pos, order, filter, hasZ, hasM, t);
    } else if IsCollectionType(DecodedType(t)) {
      CollectionShape(data, pos, order, filter, hasZ, hasM, DecodedType(t));
    }
  }

  /**
   * The body reader the header's type selects: abstract types are errors,
   * MULTICURVE and MULTISURFACE are read as a plain collection.
   */
  lemma BodyDispatch(data: seq<Byte>, pos: nat, header: Header, filter: Option<GeometryFilter>)
    requires pos <= |data|
    ensures var t, order, hasZ, hasM := header.info.geometryType, header.byteOrder, header.info.hasZ, header.info.hasM;
      var r := ParseBody(data, pos, header, filter);
      && (IsAbstract(t) ==> r == Err(AbstractType(t)))
      && (t == POINT ==> r == ParsePoint(data, pos, order, hasZ, hasM))
      && (IsPointListType(t) ==> r == ParsePointList(data, pos, order, filter, hasZ, hasM, t))
      && (IsRingListType(t) ==> r == ParseRingList(data, pos, order, filter, hasZ, hasM, t))
      && (IsCollectionType(DecodedType(t)) ==> r == ParseCollection(data, pos, order, filter, hasZ, hasM, DecodedType(t)))
      && (IsAbstract(t) || t == POINT || IsPointListType(t) || IsRingListType(t) || IsCollectionType(DecodedType(t)))
  {
    match header.info.geometryType
    case GEOMETRY => case CURVE => case SURFACE => case POINT =>
    case LINESTRING => case CIRCULARSTRING => case POLYGON => case TRIANGLE =>
    case MULTIPOINT => case MULTILINESTRING => case MULTIPOLYGON => case GEOMETRYCOLLECTION =>
    case MULTICURVE => case MULTISURFACE => case COMPOUNDCURVE => case CURVEPOLYGON =>
    case POLYHEDRALSURFACE => case TIN =>
  }

  /**
   * A decoded collection is of its type with the header's flags and holds
   * only well-formed elements of its element class (ChildrenCount gives
   * their number when there is no filter).
   */
  lemma {:induction false} CollectionShape(data: seq<Byte>, pos: nat, order: ByteOrder, filter: Option<GeometryFilter>,
                                           hasZ: bool, hasM: bool, t: GeometryType)
    requires pos <= |data| && IsCollectionType(t)
    decreases |data| - pos, 4
    ensures var r := ParseCollection(data, pos, order, filter, hasZ, hasM, t);
      r.Ok? ==>
        TypeOf(r.value.value) == t && r.value.value.hasZ == hasZ && r.value.value.hasM == hasM
        && WellFormed(r.value.value)
  {
    if pos + 4 <= |data| {
      var count := ReadIntAt(data, pos, order).value.value;
      CollectionSteps(data, pos, order, filter, hasZ, hasM, t);
      ChildrenShape(data, pos + 4, filter, t, ElementType(t), count, []);
      var elements := ParseChildren(data, pos + 4, filter, t, ElementType(t), count, []);
      if elements.Ok? {
        var all := elements.value.value;
        forall e <- all ensures IsAssignable(ElementType(t), TypeOf(e)) && WellFormed(e) {
          var i :| 0 <= i < |all| && all[i] == e;
        }
        CollectionWellFormed(t, hasZ, hasM, all);
      }
    }
  }

  /** A collection body unfolded: the count, then the children. */
  lemma CollectionSteps(data: seq<Byte>, pos: nat, order: ByteOrder, filter: Option<GeometryFilter>,
                        hasZ: bool, hasM: bool, t: GeometryType)
    requires pos + 4 <= |data| && IsCollectionType(t)
    ensures ReadIntAt(data, pos, order).Ok? && ReadIntAt(data, pos, order).value.end == pos + 4
    ensures ParseCollection(data, pos, order, filter, hasZ, hasM, t)
         == match ParseChildren(data, pos + 4, filter, t, ElementType(t), ReadIntAt(data, pos, order).value.value, [])
            case Ok(elements) => Ok(Parsed(Collection(t, hasZ, hasM, elements.value), elements.end))
            case Err(e) => Err(e)
  {
  }

  /**
   * The results of `count` full geometries read one after another, each
   * with containing type `containingType` and expected class
   * `expectedType`: a geometry the filter rejected is `None`.
   */
  function ChildrenAll(data: seq<Byte>, pos: nat, filter: Option<GeometryFilter>,
                       containingType: GeometryType, expectedType: GeometryType, count: int)
    : (r: Result<Parsed<seq<Option<Geometry>>>, WkbError>)
    requires pos <= |data|
    decreases Max0(count)
    ensures r.Ok? ==> pos <= r.value.end <= |data| && |r.value.value| == Max0(count)
  {
    if count <= 0 then Ok(Parsed([], pos))
    else
      match ParseGeometry(data, pos, filter, Some(containingType), Some(expectedType))
      case Err(e) => Err(e)
      case Ok(child) =>
        match ChildrenAll(data, child.end, filter, containingType, expectedType, count - 1)
        case Err(e) => Err(e)
        case Ok(rest) => Ok(Parsed([child.value] + rest.value, rest.end))
  }

  /** One step of ChildrenAll: the next child's result, then the rest. */
  lemma ChildrenAllStep(data: seq<Byte>, pos: nat, filter: Option<GeometryFilter>,
                        containingType: GeometryType, expectedType: GeometryType, count: int)
    requires pos <= |data| && count > 0
    ensures var first := ParseGeometry(data, pos, filter, Some(containingType), Some(expectedType));
            first.Err? ==> ChildrenAll(data, pos, filter, containingType, expectedType, count) == Err(first.error)
    ensures var first := ParseGeometry(data, pos, filter, Some(containingType), Some(expectedType));
            first.Ok? ==>
              var rest := ChildrenAll(data, first.value.end, filter, containingType, expectedType, count - 1);
              ChildrenAll(data, pos, filter, containingType, expectedType, count)
                == if rest.Ok? then Ok(Parsed([first.value.value] + rest.value.value, rest.value.end)) else Err(rest.error)
  {
  }

  /** ParseChild appends the decoded geometry when it is present. */
  lemma ChildAppends(data: seq<Byte>, pos: nat, filter: Option<GeometryFilter>,
                     containingType: GeometryType, expectedType: GeometryType, acc: seq<Geometry>)
    requires pos <= |data|
    ensures var first := ParseGeometry(data, pos, filter, Some(containingType), Some(expectedType));
            ParseChild(data, pos, filter, containingType, expectedType, acc)
              == if first.Err? then Err(first.error)
                 else if first.value.value.Some? then Ok(Parsed(acc + [first.value.value.value], first.value.end))
                 else Ok(Parsed(acc, first.value.end))
  {
  }

  /** The geometries present among `children`, in order. */
  function Present(children: seq<Option<Geometry>>): (gs: seq<Geometry>)
    ensures |gs| <= |children|
  {
    if |children| == 0 then []
    else (if children[0].Some? then [children[0].value] else []) + Present(children[1..])
  }

  /** A geometry is among the present ones exactly when some child is that geometry. */
  lemma {:induction false} PresentMembers(children: seq<Option<Geometry>>, g: Geometry)
    ensures g in Present(children) <==> Some(g) in children
  {
    if |children| > 0 {
      PresentMembers(children[1..], g);
      assert children == [children[0]] + children[1..];
    }
  }

  /** Reading one more child adds it to the present ones exactly when it is present. */
  lemma PresentCons(acc: seq<Geometry>, child: Option<Geometry>, rest: seq<Option<Geometry>>)
    ensures acc + Present([child] + rest) == (if child.Some? then acc + [child.value] else acc) + Present(rest)
  {
    assert ([child] + rest)[1..] == rest;
  }

  /**
   * The child loop reads every child announced and fails exactly when one
   * of them does; it appends to `acc` exactly the children that come back
   * present, in stream order, and ends after the last child.
   */
  lemma {:induction false} ChildrenPresent(data: seq<Byte>, pos: nat, filter: Option<GeometryFilter>,
                                           containingType: GeometryType, expectedType: GeometryType,
                                           count: int, acc: seq<Geometry>)
    requires pos <= |data|
    decreases Max0(count)
    ensures var all := ChildrenAll(data, pos, filter, containingType, expectedType, count);
            ParseChildren(data, pos, filter, containingType, expectedType, count, acc)
              == if all.Ok? then Ok(Parsed(acc + Present(all.value.value), all.value.end)) else Err(all.error)
  {
    if count > 0 {
      ChildAppends(data, pos, filter, containingType, expectedType, acc);
      ChildrenAllStep(data, pos, filter, containingType, expectedType, count);
      var first := ParseGeometry(data, pos, filter, Some(containingType), Some(expectedType));
      if first.Ok? {
        var child := first.value.value;
        ChildrenPresent(data, first.value.end, filter, containingType, expectedType, count - 1,
                        if child.Some? then acc + [child.value] else acc);
      }
      ChildrenPresentStep(data, pos, filter, containingType, expectedType, count, acc, first);
    } else {
      assert acc + Present([]) == acc;
    }
  }

  /**
   * The same correspondence when there is at least one child, given how the
   * first child `first` enters ParseChild and ChildrenAll and that the
   * correspondence holds for the children after it.
   */
  lemma ChildrenPresentStep(data: seq<Byte>, pos: nat, filter: Option<GeometryFilter>,
                            containingType: GeometryType, expectedType: GeometryType,
                            count: int, acc: seq<Geometry>,
                            first: Result<Parsed<Option<Geometry>>, WkbError>)
    requires pos <= |data| && count > 0
    requires first.Ok? ==> pos < first.value.end <= |data|
    requires ParseChild(data, pos, filter, containingType, expectedType, acc)
             == if first.Err? then Err(first.error)
                else if first.value.value.Some? then Ok(Parsed(acc + [first.value.value.value], first.value.end))
                else Ok(Parsed(acc, first.value.end))
    requires first.Err? ==> ChildrenAll(data, pos, filter, containingType, expectedType, count) == Err(first.error)
    requires first.Ok? ==>
               var rest := ChildrenAll(data, first.value.end, filter, containingType, expectedType, count - 1);
               ChildrenAll(data, pos, filter, containingType, expectedType, count)
                 == if rest.Ok? then Ok(Parsed([first.value.value] + rest.value.value, rest.value.end)) else Err(rest.error)
    requires first.Ok? ==>
               var child := first.value.value;
               var next := if child.Some? then acc + [child.value] else acc;
               var rest := ChildrenAll(data, first.value.end, filter, containingType, expectedType, count - 1);
               ParseChildren(data, first.value.end, filter, containingType, expectedType, count - 1, next)
                 == if rest.Ok? then Ok(Parsed(next + Present(rest.value.value), rest.value.end)) else Err(rest.error)
    ensures var all := ChildrenAll(data, pos, filter, containingType, expectedType, count);
            ParseChildren(data, pos, filter, containingType, expectedType, count, acc)
              == if all.Ok? then Ok(Parsed(acc + Present(all.value.value), all.value.end)) else Err(all.error)
  {
    ParseChildrenStep(data, pos, filter, containingType, expectedType, count, acc);
    if first.Ok? {
      var child := first.value.value;
      var next := if child.Some? then acc + [child.value] else acc;
      PresentJoin(acc, child, ChildrenAll(data, first.value.end, filter, containingType, expectedType, count - 1),
                  ParseChildren(data, first.value.end, filter, containingType, expectedType, count - 1, next),
                  ChildrenAll(data, pos, filter, containingType, expectedType, count));
    }
  }

  /** The correspondence for the rest, with the first child put in front of it. */
  lemma PresentJoin(acc: seq<Geometry>, child: Option<Geometry>, rest: Result<Parsed<seq<Option<Geometry>>>, WkbError>,
                    tail: Result<Parsed<seq<Geometry>>, WkbError>, all: Result<Parsed<seq<Option<Geometry>>>, WkbError>)
    requires tail == if rest.Ok? then Ok(Parsed((if child.Some? then acc + [child.value] else acc) + Present(rest.value.value), rest.value.end))
                     else Err(rest.error)
    requires all == if rest.Ok? then Ok(Parsed([child] + rest.value.value, rest.value.end)) else Err(rest.error)
    ensures tail == if all.Ok? then Ok(Parsed(acc + Present(all.value.value), all.value.end)) else Err(all.error)
  {
    if rest.Ok? {
      PresentCons(acc, child, rest.value.value);
    }
  }

  /**
   * A collection is a signed count and then that many full geometries: it
   * fails when the count is cut off or a child fails, and otherwise holds
   * exactly the children that come back present, in stream order, and ends
   * after the last child.
   */
  lemma CollectionLayout(data: seq<Byte>, pos: nat, order: ByteOrder, filter: Option<GeometryFilter>,
                         hasZ: bool, hasM: bool, t: GeometryType)
    requires pos <= |data| && IsCollectionType(t)
    ensures pos + 4 > |data| ==> ParseCollection(data, pos, order, filter, hasZ, hasM, t) == Err(Truncated)
    ensures pos + 4 <= |data| ==>
      var children := ChildrenAll(data, pos + 4, filter, t, ElementType(t), ReadIntAt(data, pos, order).value.value);
      ParseCollection(data, pos, order, filter, hasZ, hasM, t)
      == if children.Ok? then Ok(Parsed(Collection(t, hasZ, hasM, Present(children.value.value)), children.value.end))
         else Err(children.error)
  {
    if pos + 4 <= |data| {
      var count := ReadIntAt(data, pos, order).value.value;
      CollectionSteps(data, pos, order, filter, hasZ, hasM, t);
      ChildrenPresent(data, pos + 4, filter, t, ElementType(t), count, []);
      CollectionJoin(t, hasZ, hasM, ParseCollection(data, pos, order, filter, hasZ, hasM, t),
                     ParseChildren(data, pos + 4, filter, t, ElementType(t), count, []),
                     ChildrenAll(data, pos + 4, filter, t, ElementType(t), count));
    }
  }

  /** A collection made of the elements of `parsed`, which are the present ones of `all`. */
  lemma CollectionJoin(t: GeometryType, hasZ: bool, hasM: bool, whole: Result<Parsed<Geometry>, WkbError>,
                       parsed: Result<Parsed<seq<Geometry>>, WkbError>,
                       all: Result<Parsed<seq<Option<Geometry>>>, WkbError>)
    requires IsCollectionType(t)
    requires whole == if parsed.Ok? then Ok(Parsed(Collection(t, hasZ, hasM, parsed.value.value), parsed.value.end))
                      else Err(parsed.error)
    requires parsed == if all.Ok? then Ok(Parsed([] + Present(all.value.value), all.value.end)) else Err(all.error)
    ensures whole == if all.Ok? then Ok(Parsed(Collection(t, hasZ, hasM, Present(all.value.value)), all.value.end))
                     else Err(all.error)
  {
    if all.Ok? {
      assert [] + Present(all.value.value) == Present(all.value.value);
    }
  }

  /**
   * `all` is `acc` followed by well-formed geometries of class
   * `expectedType` that the filter passes with `containingType`.
   */
  predicate KeptChildren(filter: Option<GeometryFilter>, containingType: GeometryType, expectedType: GeometryType,
                         acc: seq<Geometry>, all: seq<Geometry>) {
    |acc| <= |all| && all[..|acc|] == acc
    && forall i | |acc| <= i < |all| ::
         IsAssignable(expectedType, TypeOf(all[i])) && WellFormed(all[i]) && Passes(filter, Some(containingType), all[i])
  }

  /**
   * `count` children after `acc` keep `acc` as a prefix; what they add are
   * well-formed geometries of the expected class that the filter passes.
   */
  lemma {:induction false} ChildrenShape(data: seq<Byte>, pos: nat, filter: Option<GeometryFilter>,
                                         containingType: GeometryType, expectedType: GeometryType,
                                         count: int, acc: seq<Geometry>)
    requires pos <= |data|
    decreases |data| - pos, 3
    ensures var r := ParseChildren(data, pos, filter, containingType, expectedType, count, acc);
      r.Ok? ==> KeptChildren(filter, containingType, expectedType, acc, r.value.value)
  {
    if count > 0 {
      ParseChildrenStep(data, pos, filter, containingType, expectedType, count, acc);
      ChildrenStepShape(data, pos, filter, containingType, expectedType, count, acc);
    } else {
      assert acc[..|acc|] == acc;
    }
  }

  /** The first child, then the rest: each keeps what it is given and adds kept children. */
  lemma {:induction false} ChildrenStepShape(data: seq<Byte>, pos: nat, filter: Option<GeometryFilter>,
                                             containingType: GeometryType, expectedType: GeometryType,
                                             count: int, acc: seq<Geometry>)
    requires pos <= |data| && count > 0
    decreases |data| - pos, 2
    ensures match ParseChild(data, pos, filter, containingType, expectedType, acc)
      case Err(_) => true
      case Ok(next) =>
        var rest := ParseChildren(data, next.end, filter, containingType, expectedType, count - 1, next.value);
        rest.Ok? ==> KeptChildren(filter, containingType, expectedType, acc, rest.value.value)
  {
    var child := ParseChild(data, pos, filter, containingType, expectedType, acc);
    if child.Ok? {
      ChildShape(data, pos, filter, containingType, expectedType, acc);
      ChildrenShape(data, child.value.end, filter, containingType, expectedType, count - 1, child.value.value);
      var rest := ParseChildren(data, child.value.end, filter, containingType, expectedType, count - 1, child.value.value);
      if rest.Ok? {
        KeptChildrenTransitive(filter, containingType, expectedType, acc, child.value.value, rest.value.value);
      }
    }
  }

  /** Extending an extension of `acc` extends `acc`. */
  lemma KeptChildrenTransitive(filter: Option<GeometryFilter>, containingType: GeometryType, expectedType: GeometryType,
                               acc: seq<Geometry>, next: seq<Geometry>, all: seq<Geometry>)
    requires KeptChildren(filter, containingType, expectedType, acc, next)
    requires KeptChildren(filter, containingType, expectedType, next, all)
    ensures KeptChildren(filter, containingType, expectedType, acc, all)
  {
    forall i | |acc| <= i < |next| ensures all[i] == next[i] {
      assert all[..|next|][i] == all[i];
    }
  }

  /**
   * One child appends to `acc` at most the geometry it decodes, which is well
   * formed, of the expected class and passes the filter.
   */
  lemma {:induction false} ChildShape(data: seq<Byte>, pos: nat, filter: Option<GeometryFilter>,
                                      containingType: GeometryType, expectedType: GeometryType, acc: seq<Geometry>)
    requires pos <= |data|
    decreases |data| - pos, 1
    ensures var r := ParseChild(data, pos, filter, containingType, expectedType, acc);
      r.Ok? ==> |r.value.value| <= |acc| + 1 && KeptChildren(filter, containingType, expectedType, acc, r.value.value)
  {
    GeometryShape(data, pos, filter, Some(containingType), Some(expectedType));
    var e := ParseGeometry(data, pos, filter, Some(containingType), Some(expectedType));
    if e.Ok? && e.value.value.Some? {
      assert (acc + [e.value.value.value])[..|acc|] == acc;
    }
  }

  /** Without a filter no child is dropped: a collection keeps one element per child announced. */
  lemma {:induction false} ChildrenCount(data: seq<Byte>, pos: nat, containingType: GeometryType,
                                         expectedType: GeometryType, count: int, acc: seq<Geometry>)
    requires pos <= |data|
    decreases Max0(count)
    ensures var r := ParseChildren(data, pos, None, containingType, expectedType, count, acc);
      r.Ok? ==> |r.value.value| == |acc| + Max0(count)
  {
    if count > 0 {
      ParseChildrenStep(data, pos, None, containingType, expectedType, count, acc);
      var child := ParseChild(data, pos, None, containingType, expectedType, acc);
      if child.Ok? {
        assert |child.value.value| == |acc| + 1;
        ChildrenCount(data, child.value.end, containingType, expectedType, count - 1, child.value.value);
      }
    }
  }
}
