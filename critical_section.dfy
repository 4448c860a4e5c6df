/**
 * The shape generator of the critical section (`generate_critical_section`): from the column
 * size Cx by Cy, the distance dist of the critical section from the column face and the
 * column type, the list of points of the critical-section polyline in column-centred
 * coordinates. The faces of the column are pushed out by dist in x and in y and the corners
 * are chamfered; an interior column gives a closed octagon, an edge column with its left face
 * free the open six-point chain that leaves that face out, and a corner column with its top
 * and left faces free the open four-point chain that leaves both out.
 */
module CriticalSection {
  import opened Geometry
  import opened SectionProperties
  import opened SectionTheory

  /** The column types the generator recognises, and any other tag. */
  datatype ColumnType = Interior | EdgeLeftFree | CornerTopLeftFree | Unrecognized(tag: string)

  /** The tag of each recognised column type, as the calculator's caller spells it. */
  function Tag(t: ColumnType): string
  {
    match t
    case Interior => "Interior"
    case EdgeLeftFree => "Edge (Left Free)"
    case CornerTopLeftFree => "Corner (Top-Left Free)"
    case Unrecognized(tag) => tag
  }

  /** Reads a column-type tag; a tag other than the three recognised ones is Unrecognized. */
  function ParseColumnType(tag: string): (t: ColumnType)
    ensures Tag(t) == tag
    ensures t.Unrecognized? <==> tag !in {"Interior", "Edge (Left Free)", "Corner (Top-Left Free)"}
  {
    if tag == "Interior" then Interior
    else if tag == "Edge (Left Free)" then EdgeLeftFree
    else if tag == "Corner (Top-Left Free)" then CornerTopLeftFree
    else Unrecognized(tag)
  }

  /** A recognised column type survives writing its tag and reading it back. */
  lemma ParseTag(t: ColumnType)
    requires !t.Unrecognized?
    ensures ParseColumnType(Tag(t)) == t
  {
  }

  /**
   * The points of the critical section of each column type: nine for the octagon, whose last
   * point closes it on its first, six and four for the open chains, none for any other tag.
   */
  function Generate(cx: real, cy: real, dist: real, t: ColumnType): (pts: seq<Point>)
    ensures |pts| == match t
      case Interior => 9
      case EdgeLeftFree => 6
      case CornerTopLeftFree => 4
      case Unrecognized(_) => 0
    ensures t.Interior? ==> pts[8] == pts[0]
  {
    var hx, hy := cx / 2.0, cy / 2.0;
    var xFar, yFar := hx + dist, hy + dist;
    match t
    case Interior =>
      [Point(-hx, yFar), Point(hx, yFar),
       Point(xFar, hy), Point(xFar, -hy),
       Point(hx, -yFar), Point(-hx, -yFar),
       Point(-xFar, -hy), Point(-xFar, hy),
       Point(-hx, yFar)]
    case EdgeLeftFree =>
      [Point(-hx, yFar), Point(hx, yFar), Point(xFar, hy), Point(xFar, -hy), Point(hx, -yFar), Point(-hx, -yFar)]
    case CornerTopLeftFree =>
      [Point(xFar, hy), Point(xFar, -hy), Point(hx, -yFar), Point(-hx, -yFar)]
    case Unrecognized(_) => []
  }

  /**
   * The point p lies on a column face pushed out by dist: a face end moved straight out in x
   * (x = +-(Cx/2 + dist), y = +-Cy/2) or in y (y = +-(Cy/2 + dist), x = +-Cx/2).
   */
  predicate OnOffsetFace(p: Point, cx: real, cy: real, dist: real)
  {
    var hx, hy := cx / 2.0, cy / 2.0;
    || ((p.x == hx + dist || p.x == -(hx + dist)) && (p.y == hy || p.y == -hy))
    || ((p.y == hy + dist || p.y == -(hy + dist)) && (p.x == hx || p.x == -hx))
  }

  /** The generator as the caller invokes it: each recognised tag selects its shape, and any other tag gives no points. */
  function GenerateCriticalSection(cx: real, cy: real, dist: real, colType: string): (pts: seq<Point>)
    ensures colType == "Interior" ==> pts == Generate(cx, cy, dist, Interior)
    ensures colType == "Edge (Left Free)" ==> pts == Generate(cx, cy, dist, EdgeLeftFree)
    ensures colType == "Corner (Top-Left Free)" ==> pts == Generate(cx, cy, dist, CornerTopLeftFree)
    ensures colType !in {"Interior", "Edge (Left Free)", "Corner (Top-Left Free)"} ==> pts == []
  {
    Generate(cx, cy, dist, ParseColumnType(colType))
  }

  /**
   * The sizes of the shapes: a closed nine-point octagon whose last point repeats its first,
   * an open six-point chain, an open four-point chain, and no points for any other tag.
   */
  lemma ShapeSizes(cx: real, cy: real, dist: real, colType: string)
    ensures var pts := GenerateCriticalSection(cx, cy, dist, colType);
      && (colType == "Interior" ==> |pts| == 9 && pts[8] == pts[0])
      && (colType == "Edge (Left Free)" ==> |pts| == 6)
      && (colType == "Corner (Top-Left Free)" ==> |pts| == 4)
      && (colType != "Interior" && colType != "Edge (Left Free)" && colType != "Corner (Top-Left Free)" ==> pts == [])
  {
  }

  /**
   * The open shapes are pieces of the octagon: the edge chain is its first six points (the
   * left face left out) and the corner chain its points two to five (the top and left faces
   * left out).
   */
  lemma OpenShapesFollowOctagon(cx: real, cy: real, dist: real)
    ensures Generate(cx, cy, dist, EdgeLeftFree) == Generate(cx, cy, dist, Interior)[..6]
    ensures Generate(cx, cy, dist, CornerTopLeftFree) == Generate(cx, cy, dist, Interior)[2..6]
  {
  }

  function Negate(p: Point): Point
  {
    Point(-p.x, -p.y)
  }

  /** The octagon is symmetric about the column centre: each point's opposite lies four points on. */
  lemma OctagonPointSymmetric(cx: real, cy: real, dist: real)
    ensures var pts := Generate(cx, cy, dist, Interior);
      forall i :: 0 <= i < 4 ==> pts[i + 4] == Negate(pts[i])
  {
  }

  /**
   * Every generated point lies on a column face pushed out by dist, and so, for a column of
   * non-negative size and a non-negative dist, in the box of half-sizes Cx/2 + dist and Cy/2 + dist.
   */
  lemma PointsOnOffsetFaces(cx: real, cy: real, dist: real, t: ColumnType)
    ensures var pts := Generate(cx, cy, dist, t);
      forall i :: 0 <= i < |pts| ==> OnOffsetFace(pts[i], cx, cy, dist)
    ensures 0.0 <= cx && 0.0 <= cy && 0.0 <= dist ==>
      var pts := Generate(cx, cy, dist, t);
      forall i :: 0 <= i < |pts| ==>
        InBox(pts[i], Point(-(cx / 2.0 + dist), -(cy / 2.0 + dist)), Point(cx / 2.0 + dist, cy / 2.0 + dist))
  {
  }

  /** The generated section's centroid lies within the box of half-sizes Cx/2 + dist and Cy/2 + dist. */
  lemma GeneratedCentroidInBox(sqrt: real -> real, cx: real, cy: real, dist: real, t: ColumnType, d: real)
    requires IsSqrt(sqrt)
    requires 0.0 <= cx && 0.0 <= cy && 0.0 <= dist
    requires Section(sqrt, Generate(cx, cy, dist, t), d).Some?
    ensures InBox(Section(sqrt, Generate(cx, cy, dist, t), d).value.centroid,
                  Point(-(cx / 2.0 + dist), -(cy / 2.0 + dist)), Point(cx / 2.0 + dist, cy / 2.0 + dist))
  {
    PointsOnOffsetFaces(cx, cy, dist, t);
    CentroidInBoundingBox(sqrt, Generate(cx, cy, dist, t), d,
                          Point(-(cx / 2.0 + dist), -(cy / 2.0 + dist)), Point(cx / 2.0 + dist, cy / 2.0 + dist));
  }

  /** The length of a chamfer: the diagonal of a square of side dist. */
  function Chamfer(sqrt: real -> real, dist: real): real
  {
    sqrt(dist * dist + dist * dist)
  }

  /** A chamfer is at least as long as the distance it is cut at. */
  lemma ChamferAtLeastDistance(sqrt: real -> real, dist: real)
    requires IsSqrt(sqrt) && 0.0 <= dist
    ensures dist <= Chamfer(sqrt, dist)
  {
    var c := Chamfer(sqrt, dist);
    ChamferPositive(sqrt, dist);
    SquareNonNegative(dist);
    if c < dist {
      SquareStrictlyIncreasing(c, dist);
      assert false;
    }
  }

  /** The perimeter each shape should have: its straight faces and its chamfers. */
  function ShapePerimeter(sqrt: real -> real, cx: real, cy: real, dist: real, t: ColumnType): real
  {
    match t
    case Interior => 2.0 * cx + 2.0 * cy + 4.0 * Chamfer(sqrt, dist)
    case EdgeLeftFree => 2.0 * cx + cy + 2.0 * Chamfer(sqrt, dist)
    case CornerTopLeftFree => cx + cy + Chamfer(sqrt, dist)
    case Unrecognized(_) => 0.0
  }

  lemma HorizontalSide(sqrt: real -> real, a: real, b: real, y: real)
    requires IsSqrt(sqrt)
    ensures Distance(sqrt, Point(a, y), Point(b, y)) == Abs(b - a)
  {
    assert Abs(b - a) * Abs(b - a) == (b - a) * (b - a);
    assert SquaredDistance(Point(a, y), Point(b, y)) == (b - a) * (b - a);
    SqrtUnique(sqrt, SquaredDistance(Point(a, y), Point(b, y)), Abs(b - a));
  }

  lemma VerticalSide(sqrt: real -> real, x: real, a: real, b: real)
    requires IsSqrt(sqrt)
    ensures Distance(sqrt, Point(x, a), Point(x, b)) == Abs(b - a)
  {
    assert Abs(b - a) * Abs(b - a) == (b - a) * (b - a);
    assert SquaredDistance(Point(x, a), Point(x, b)) == (b - a) * (b - a);
    SqrtUnique(sqrt, SquaredDistance(Point(x, a), Point(x, b)), Abs(b - a));
  }

  /** A step of dist in x and dist in y, in any directions, is a chamfer long. */
  lemma DiagonalSide(sqrt: real -> real, p: Point, q: Point, dist: real)
    requires q.x - p.x == dist || q.x - p.x == -dist
    requires q.y - p.y == dist || q.y - p.y == -dist
    ensures Distance(sqrt, p, q) == Chamfer(sqrt, dist)
  {
    assert (q.x - p.x) * (q.x - p.x) == dist * dist;
    assert (q.y - p.y) * (q.y - p.y) == dist * dist;
    assert SquaredDistance(p, q) == dist * dist + dist * dist;
  }

  /** A chamfer is positive exactly when dist is not zero. */
  lemma ChamferPositive(sqrt: real -> real, dist: real)
    requires IsSqrt(sqrt)
    ensures 0.0 <= Chamfer(sqrt, dist)
    ensures dist != 0.0 ==> 0.0 < Chamfer(sqrt, dist)
  {
    SquareNonNegative(dist);
    if dist != 0.0 {
      assert Abs(dist) * Abs(dist) == dist * dist;
      SquareStrictlyIncreasing(0.0, Abs(dist));
      assert 0.0 < dist * dist + dist * dist;
    }
  }

  /** One more point adds the distance from the last point to the polyline's length. */
  lemma PolylineStep(sqrt: real -> real, pts: seq<Point>, k: nat)
    requires 2 <= k <= |pts|
    ensures PolylineLength(sqrt, pts[..k]) == PolylineLength(sqrt, pts[..k - 1]) + Distance(sqrt, pts[k - 2], pts[k - 1])
  {
    assert pts[..k][..k - 1] == pts[..k - 1];
  }

  /** The length of the first five points of the octagon: top face, chamfer, right face, chamfer. */
  lemma OctagonHalfLength(sqrt: real -> real, cx: real, cy: real, dist: real)
    requires IsSqrt(sqrt)
    requires 0.0 <= cx && 0.0 <= cy
    ensures var pts := Generate(cx, cy, dist, Interior);
      PolylineLength(sqrt, pts[..5]) == cx + Chamfer(sqrt, dist) + cy + Chamfer(sqrt, dist)
  {
    var pts := Generate(cx, cy, dist, Interior);
    var hx, hy := cx / 2.0, cy / 2.0;
    HorizontalSide(sqrt, -hx, hx, hy + dist);
    VerticalSide(sqrt, hx + dist, hy, -hy);
    DiagonalSide(sqrt, pts[1], pts[2], dist);
    DiagonalSide(sqrt, pts[3], pts[4], dist);
    assert pts[..1][..0] == [];
    PolylineStep(sqrt, pts, 2);
    PolylineStep(sqrt, pts, 3);
    PolylineStep(sqrt, pts, 4);
    PolylineStep(sqrt, pts, 5);
  }

  /**
   * The length of the whole closed octagon: the first half, then the bottom face, a chamfer,
   * the left face and the closing chamfer, which is 2 Cx + 2 Cy + 4 chamfers.
   */
  lemma OctagonLength(sqrt: real -> real, cx: real, cy: real, dist: real)
    requires IsSqrt(sqrt)
    requires 0.0 <= cx && 0.0 <= cy
    ensures PolylineLength(sqrt, Generate(cx, cy, dist, Interior)) == ShapePerimeter(sqrt, cx, cy, dist, Interior)
  {
    var pts := Generate(cx, cy, dist, Interior);
    var hx, hy := cx / 2.0, cy / 2.0;
    var c := Chamfer(sqrt, dist);
    OctagonHalfLength(sqrt, cx, cy, dist);
    var half := PolylineLength(sqrt, pts[..5]);
    HorizontalSide(sqrt, hx, -hx, -(hy + dist));
    assert Distance(sqrt, pts[4], pts[5]) == cx;
    PolylineStep(sqrt, pts, 6);
    assert PolylineLength(sqrt, pts[..6]) == half + cx;
    DiagonalSide(sqrt, pts[5], pts[6], dist);
    PolylineStep(sqrt, pts, 7);
    assert PolylineLength(sqrt, pts[..7]) == half + cx + c;
    VerticalSide(sqrt, -(hx + dist), -hy, hy);
    assert Distance(sqrt, pts[6], pts[7]) == cy;
    PolylineStep(sqrt, pts, 8);
    assert PolylineLength(sqrt, pts[..8]) == half + cx + c + cy;
    DiagonalSide(sqrt, pts[7], pts[8], dist);
    PolylineStep(sqrt, pts, 9);
    assert pts[..9] == pts;
  }

  /** The edge chain: top face, chamfer, right face, chamfer, bottom face. */
  lemma EdgeChainLength(sqrt: real -> real, cx: real, cy: real, dist: real)
    requires IsSqrt(sqrt)
    requires 0.0 <= cx && 0.0 <= cy
    ensures PolylineLength(sqrt, Generate(cx, cy, dist, EdgeLeftFree)) == ShapePerimeter(sqrt, cx, cy, dist, EdgeLeftFree)
  {
    var pts := Generate(cx, cy, dist, Interior);
    OctagonHalfLength(sqrt, cx, cy, dist);
    HorizontalSide(sqrt, cx / 2.0, -(cx / 2.0), -(cy / 2.0 + dist));
    PolylineStep(sqrt, pts, 6);
    assert Generate(cx, cy, dist, EdgeLeftFree) == pts[..6];
  }

  /** The corner chain: right face, chamfer, bottom face. */
  lemma CornerChainLength(sqrt: real -> real, cx: real, cy: real, dist: real)
    requires IsSqrt(sqrt)
    requires 0.0 <= cx && 0.0 <= cy
    ensures PolylineLength(sqrt, Generate(cx, cy, dist, CornerTopLeftFree)) == ShapePerimeter(sqrt, cx, cy, dist, CornerTopLeftFree)
  {
    var pts := Generate(cx, cy, dist, CornerTopLeftFree);
    var hx, hy := cx / 2.0, cy / 2.0;
    VerticalSide(sqrt, hx + dist, hy, -hy);
    DiagonalSide(sqrt, pts[1], pts[2], dist);
    HorizontalSide(sqrt, hx, -hx, -(hy + dist));
    assert pts[..1][..0] == [];
    PolylineStep(sqrt, pts, 2);
    PolylineStep(sqrt, pts, 3);
    PolylineStep(sqrt, pts, 4);
    assert pts[..4] == pts;
  }

  /** The length of each generated polyline for a column of non-negative size. */
  lemma GeneratedPolylineLength(sqrt: real -> real, cx: real, cy: real, dist: real, t: ColumnType)
    requires IsSqrt(sqrt)
    requires 0.0 <= cx && 0.0 <= cy
    ensures PolylineLength(sqrt, Generate(cx, cy, dist, t)) == ShapePerimeter(sqrt, cx, cy, dist, t)
  {
    match t {
      case Interior => OctagonLength(sqrt, cx, cy, dist);
      case EdgeLeftFree => EdgeChainLength(sqrt, cx, cy, dist);
      case CornerTopLeftFree => CornerChainLength(sqrt, cx, cy, dist);
      case Unrecognized(_) =>
    }
  }

  /** Every recognised shape of a column with some size or distance has a positive perimeter. */
  lemma ShapePerimeterPositive(sqrt: real -> real, cx: real, cy: real, dist: real, t: ColumnType)
    requires IsSqrt(sqrt)
    requires 0.0 <= cx && 0.0 <= cy
    requires cx != 0.0 || cy != 0.0 || dist != 0.0
    ensures ShapePerimeter(sqrt, cx, cy, dist, t) == 0.0 <==> t.Unrecognized?
  {
    ChamferPositive(sqrt, dist);
  }

  /**
   * For a column of non-negative size with some size or distance, the calculator returns
   * properties for every recognised column type and none for an unrecognised one.
   */
  lemma GeneratedSectionExists(sqrt: real -> real, cx: real, cy: real, dist: real, t: ColumnType, d: real)
    requires IsSqrt(sqrt)
    requires 0.0 <= cx && 0.0 <= cy
    requires cx != 0.0 || cy != 0.0 || dist != 0.0
    ensures Section(sqrt, Generate(cx, cy, dist, t), d).None? <==> t.Unrecognized?
  {
    GeneratedPolylineLength(sqrt, cx, cy, dist, t);
    ShapePerimeterPositive(sqrt, cx, cy, dist, t);
    SectionOfLength(sqrt, Generate(cx, cy, dist, t), d);
  }

  /** The properties of a generated section have the shape's perimeter as bo (and so, as for every section, bo * d as Ac). */
  lemma GeneratedPerimeter(sqrt: real -> real, cx: real, cy: real, dist: real, t: ColumnType, d: real)
    requires IsSqrt(sqrt)
    requires 0.0 <= cx && 0.0 <= cy
    requires Section(sqrt, Generate(cx, cy, dist, t), d).Some?
    ensures Section(sqrt, Generate(cx, cy, dist, t), d).value.bo == ShapePerimeter(sqrt, cx, cy, dist, t)
  {
    GeneratedPolylineLength(sqrt, cx, cy, dist, t);
    SectionOfLength(sqrt, Generate(cx, cy, dist, t), d);
  }
}
