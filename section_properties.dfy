/**
 * The property calculator of the critical section (`calculate_section_properties`):
 * a polyline of points is reduced, segment by segment, to its perimeter, its area, its
 * line centroid, the second moments about the centroidal axes (equations B.8, B.9 and B.11
 * of ACI 421.1R-20 Appendix B) and the principal moments with the choice of principal angle
 * (equation B.10).
 *
 * The functions below are the specification: each accumulator of the source's two loops is
 * a sum over a prefix of the segment list, defined by recursion on its last element so that
 * a loop that walks forward extends it one element at a time. The method
 * `CalculateSectionProperties` is the source's imperative procedure and is proved to
 * compute `Section`.
 */
module SectionProperties {
  import opened Geometry

  /** One recorded segment: its endpoints, its length and its midpoint. */
  datatype Segment = Segment(p1: Point, p2: Point, l: real, xm: real, ym: real)

  /**
   * The principal angle, represented by the branch that produced it: zero, a quarter of
   * pi, or half of the two-argument arctangent of (y, x).
   */
  datatype Angle = Zero | QuarterPi | HalfAtan2(y: real, x: real)

  /** The result record of the calculator. */
  datatype Properties = Properties(
    bo: real,             // perimeter: the summed length of the recorded segments
    ac: real,             // area of the critical section, bo * d
    centroid: Point,      // length-weighted centroid of the segments
    jcx: real,            // second moment about the centroidal x axis (B.8)
    jcy: real,            // second moment about the centroidal y axis (B.9)
    jxy: real,            // product of inertia about the centroidal axes (B.11)
    jMajor: real,         // major principal moment
    jMinor: real,         // minor principal moment
    theta: Angle,         // principal angle, by branch (B.10)
    segments: seq<Segment>)

  datatype Option<T> = None | Some(value: T)

  /** The tolerance of both tests that choose the principal angle. */
  const ANGLE_TOLERANCE: real := 0.000001

  function MakeSegment(sqrt: real -> real, p: Point, q: Point): Segment
  {
    Segment(p, q, Distance(sqrt, p, q), (p.x + q.x) / 2.0, (p.y + q.y) / 2.0)
  }

  /** The segments the first loop records: consecutive pairs of points, skipping those of length zero. */
  function Segments(sqrt: real -> real, pts: seq<Point>): seq<Segment>
  {
    if |pts| < 2 then []
    else
      var s := MakeSegment(sqrt, pts[|pts| - 2], pts[|pts| - 1]);
      Segments(sqrt, pts[..|pts| - 1]) + (if s.l == 0.0 then [] else [s])
  }

  /** The summed length of the segments. */
  function TotalLength(segs: seq<Segment>): real
  {
    if segs == [] then 0.0 else TotalLength(segs[..|segs| - 1]) + segs[|segs| - 1].l
  }

  /** The first moment about the x axis: the sum of l * ym. */
  function MomentX(segs: seq<Segment>): real
  {
    if segs == [] then 0.0 else MomentX(segs[..|segs| - 1]) + segs[|segs| - 1].l * segs[|segs| - 1].ym
  }

  /** The first moment about the y axis: the sum of l * xm. */
  function MomentY(segs: seq<Segment>): real
  {
    if segs == [] then 0.0 else MomentY(segs[..|segs| - 1]) + segs[|segs| - 1].l * segs[|segs| - 1].xm
  }

  /** The integral of the square of a coordinate along a segment, times three over its length. */
  function SquareTerm(a1: real, a2: real): real
  {
    a1 * a1 + a1 * a2 + a2 * a2
  }

  /** The integral of x * y along a segment, times six over its length. */
  function ProductTerm(x1: real, y1: real, x2: real, y2: real): real
  {
    2.0 * x1 * y1 + x1 * y2 + x2 * y1 + 2.0 * x2 * y2
  }

  /** Equation B.8 for one segment, with its endpoints measured from (xBar, yBar). */
  function ContributionX(s: Segment, xBar: real, yBar: real, d: real): real
  {
    d * (s.l / 3.0) * SquareTerm(s.p1.y - yBar, s.p2.y - yBar)
  }

  /** Equation B.9 for one segment, with its endpoints measured from (xBar, yBar). */
  function ContributionY(s: Segment, xBar: real, yBar: real, d: real): real
  {
    d * (s.l / 3.0) * SquareTerm(s.p1.x - xBar, s.p2.x - xBar)
  }

  /** Equation B.11 for one segment, with its endpoints measured from (xBar, yBar). */
  function ContributionXY(s: Segment, xBar: real, yBar: real, d: real): real
  {
    d * (s.l / 6.0) * ProductTerm(s.p1.x - xBar, s.p1.y - yBar, s.p2.x - xBar, s.p2.y - yBar)
  }

  function InertiaX(segs: seq<Segment>, xBar: real, yBar: real, d: real): real
  {
    if segs == [] then 0.0 else InertiaX(segs[..|segs| - 1], xBar, yBar, d) + ContributionX(segs[|segs| - 1], xBar, yBar, d)
  }

  function InertiaY(segs: seq<Segment>, xBar: real, yBar: real, d: real): real
  {
    if segs == [] then 0.0 else InertiaY(segs[..|segs| - 1], xBar, yBar, d) + ContributionY(segs[|segs| - 1], xBar, yBar, d)
  }

  function ProductOfInertia(segs: seq<Segment>, xBar: real, yBar: real, d: real): real
  {
    if segs == [] then 0.0 else ProductOfInertia(segs[..|segs| - 1], xBar, yBar, d) + ContributionXY(segs[|segs| - 1], xBar, yBar, d)
  }

  /** The radius of Mohr's circle: sqrt(((jcx - jcy) / 2)**2 + jxy**2). */
  function MohrRadius(sqrt: real -> real, jcx: real, jcy: real, jxy: real): real
  {
    var diff := (jcx - jcy) / 2.0;
    sqrt(diff * diff + jxy * jxy)
  }

  /** The branch that chooses the principal angle, with its two tolerance tests. */
  function PrincipalAngle(jcx: real, jcy: real, jxy: real): Angle
  {
    if Abs(jcx - jcy) < ANGLE_TOLERANCE then
      if Abs(jxy) < ANGLE_TOLERANCE then Zero else QuarterPi
    else
      HalfAtan2(-2.0 * jxy, jcx - jcy)
  }

  /** The length-weighted centroid of the segments, whose summed length is total. */
  function Centroid(segs: seq<Segment>, total: real): Point
    requires total != 0.0
  {
    Point(MomentY(segs) / total, MomentX(segs) / total)
  }

  /**
   * The properties of segments of summed length total about the centroid c: the moments
   * about the centroidal axes, then Mohr's circle for the principal moments.
   */
  function Summary(sqrt: real -> real, segs: seq<Segment>, total: real, c: Point, d: real): Properties
  {
    var jcx, jcy, jxy := InertiaX(segs, c.x, c.y, d), InertiaY(segs, c.x, c.y, d), ProductOfInertia(segs, c.x, c.y, d);
    var avg := (jcx + jcy) / 2.0;
    var radius := MohrRadius(sqrt, jcx, jcy, jxy);
    Properties(total, total * d, c, jcx, jcy, jxy, avg + radius, avg - radius, PrincipalAngle(jcx, jcy, jxy), segs)
  }

  /** The properties of the section whose polyline is pts, or None when its length is zero. */
  function Section(sqrt: real -> real, pts: seq<Point>, d: real): Option<Properties>
  {
    var segs := Segments(sqrt, pts);
    var total := TotalLength(segs);
    if total == 0.0 then None else Some(Summary(sqrt, segs, total, Centroid(segs, total), d))
  }

  function Min(a: int, b: int): int
  {
    if a <= b then a else b
  }

  /**
   * The first loop of the calculator: walk the consecutive pairs of points, skip those of
   * length zero, record the others and accumulate their length and first moments.
   */
  method RecordSegments(points: seq<Point>, sqrt: real -> real)
    returns (segments: seq<Segment>, totalLength: real, sumMx: real, sumMy: real)
    ensures segments == Segments(sqrt, points)
    ensures totalLength == TotalLength(segments)
    ensures sumMx == MomentX(segments) && sumMy == MomentY(segments)
  {
    totalLength, sumMx, sumMy := 0.0, 0.0, 0.0;
    segments := [];
    var n := |points|;
    // range(len(points) - 1) is empty when there are no points
    for i := 0 to if n == 0 then 0 else n - 1
      invariant segments == Segments(sqrt, points[..Min(i + 1, n)])
      invariant totalLength == TotalLength(segments)
      invariant sumMx == MomentX(segments)
      invariant sumMy == MomentY(segments)
    {
      var p1, p2 := points[i], points[i + 1];
      assert points[..i + 2][..i + 1] == points[..i + 1];
      var l := Distance(sqrt, p1, p2);
      if l == 0.0 {
        continue;
      }
      var xm, ym := (p1.x + p2.x) / 2.0, (p1.y + p2.y) / 2.0;
      totalLength := totalLength + l;
      sumMx := sumMx + l * ym;
      sumMy := sumMy + l * xm;
      segments := segments + [Segment(p1, p2, l, xm, ym)];
    }
    assert points[..n] == points;
  }

  /**
   * The second loop of the calculator: accumulate equations B.8, B.9 and B.11 over the
   * recorded segments, with every endpoint measured from the centroid (xBar, yBar).
   */
  method CentroidalMoments(segments: seq<Segment>, xBar: real, yBar: real, d: real)
    returns (jcx: real, jcy: real, jxy: real)
    ensures jcx == InertiaX(segments, xBar, yBar, d)
    ensures jcy == InertiaY(segments, xBar, yBar, d)
    ensures jxy == ProductOfInertia(segments, xBar, yBar, d)
  {
    jcx, jcy, jxy := 0.0, 0.0, 0.0;
    for k := 0 to |segments|
      invariant jcx == InertiaX(segments[..k], xBar, yBar, d)
      invariant jcy == InertiaY(segments[..k], xBar, yBar, d)
      invariant jxy == ProductOfInertia(segments[..k], xBar, yBar, d)
    {
      MomentsStep(segments, k, xBar, yBar, d);
      jcx := jcx + ContributionX(segments[k], xBar, yBar, d);
      jcy := jcy + ContributionY(segments[k], xBar, yBar, d);
      jxy := jxy + ContributionXY(segments[k], xBar, yBar, d);
    }
    assert segments[..|segments|] == segments;
  }

  lemma MomentsStep(segs: seq<Segment>, k: nat, xBar: real, yBar: real, d: real)
    requires k < |segs|
    ensures InertiaX(segs[..k + 1], xBar, yBar, d) == InertiaX(segs[..k], xBar, yBar, d) + ContributionX(segs[k], xBar, yBar, d)
    ensures InertiaY(segs[..k + 1], xBar, yBar, d) == InertiaY(segs[..k], xBar, yBar, d) + ContributionY(segs[k], xBar, yBar, d)
    ensures ProductOfInertia(segs[..k + 1], xBar, yBar, d) == ProductOfInertia(segs[..k], xBar, yBar, d) + ContributionXY(segs[k], xBar, yBar, d)
  {
    assert segs[..k + 1][..k] == segs[..k];
  }

  /** Summary, in terms of the three moments the second loop produces and the principal values and angle they give. */
  lemma SummaryOf(sqrt: real -> real, segs: seq<Segment>, total: real, c: Point, d: real,
                  jcx: real, jcy: real, jxy: real, jMajor: real, jMinor: real, theta: Angle)
    requires jcx == InertiaX(segs, c.x, c.y, d)
    requires jcy == InertiaY(segs, c.x, c.y, d)
    requires jxy == ProductOfInertia(segs, c.x, c.y, d)
    requires jMajor == (jcx + jcy) / 2.0 + MohrRadius(sqrt, jcx, jcy, jxy)
    requires jMinor == (jcx + jcy) / 2.0 - MohrRadius(sqrt, jcx, jcy, jxy)
    requires theta == PrincipalAngle(jcx, jcy, jxy)
    ensures Summary(sqrt, segs, total, c, d) == Properties(total, total * d, c, jcx, jcy, jxy, jMajor, jMinor, theta, segs)
  {
  }

  /** Section, for a polyline whose recorded segments, total length and centroid are known. */
  lemma SectionOfSegments(sqrt: real -> real, pts: seq<Point>, d: real, segs: seq<Segment>, total: real, c: Point)
    requires segs == Segments(sqrt, pts)
    requires total == TotalLength(segs) && total != 0.0
    requires c == Centroid(segs, total)
    ensures Section(sqrt, pts, d) == Some(Summary(sqrt, segs, total, c, d))
  {
  }

  /**
   * The calculator's result, from the recorded segments, their total length, their centroid,
   * their three moments and the principal values and angle those moments give.
   */
  lemma SectionIs(sqrt: real -> real, pts: seq<Point>, d: real, segs: seq<Segment>, total: real, c: Point,
                  jcx: real, jcy: real, jxy: real, jMajor: real, jMinor: real, theta: Angle)
    requires segs == Segments(sqrt, pts)
    requires total == TotalLength(segs) && total != 0.0
    requires c == Centroid(segs, total)
    requires jcx == InertiaX(segs, c.x, c.y, d)
    requires jcy == InertiaY(segs, c.x, c.y, d)
    requires jxy == ProductOfInertia(segs, c.x, c.y, d)
    requires jMajor == (jcx + jcy) / 2.0 + MohrRadius(sqrt, jcx, jcy, jxy)
    requires jMinor == (jcx + jcy) / 2.0 - MohrRadius(sqrt, jcx, jcy, jxy)
    requires theta == PrincipalAngle(jcx, jcy, jxy)
    ensures Section(sqrt, pts, d) == Some(Properties(total, total * d, c, jcx, jcy, jxy, jMajor, jMinor, theta, segs))
  {
    SectionOfSegments(sqrt, pts, d, segs, total, c);
    SummaryOf(sqrt, segs, total, c, d, jcx, jcy, jxy, jMajor, jMinor, theta);
  }

  /**
   * The calculator: the two loops, the centroid between them, then the principal moments
   * from Mohr's circle and the principal angle chosen by its tolerance tests.
   */
  method CalculateSectionProperties(points: seq<Point>, d: real, sqrt: real -> real)
    returns (res: Option<Properties>)
    ensures res == Section(sqrt, points, d)
  {
    var segments, totalLength, sumMx, sumMy := RecordSegments(points, sqrt);
    if totalLength == 0.0 {
      return None;
    }

    var xBar, yBar := sumMy / totalLength, sumMx / totalLength;
    var jcx, jcy, jxy := CentroidalMoments(segments, xBar, yBar, d);

    var avg := (jcx + jcy) / 2.0;
    var radius := MohrRadius(sqrt, jcx, jcy, jxy);
    var jMax, jMin := avg + radius, avg - radius;

    var theta: Angle;
    if Abs(jcx - jcy) < ANGLE_TOLERANCE {
      theta := if Abs(jxy) < ANGLE_TOLERANCE then Zero else QuarterPi;
    } else {
      theta := HalfAtan2(-2.0 * jxy, jcx - jcy);
    }

    SectionIs(sqrt, points, d, segments, totalLength, Point(xBar, yBar), jcx, jcy, jxy, jMax, jMin, theta);
    res := Some(Properties(totalLength, totalLength * d, Point(xBar, yBar), jcx, jcy, jxy, jMax, jMin, theta, segments));
  }
}
