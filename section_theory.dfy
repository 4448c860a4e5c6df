/**
 * What the calculator's results mean: the recorded segments are the non-degenerate pairs of
 * consecutive points, the perimeter is the length of the polyline, no result comes back
 * exactly when the polyline has no length, a repeated point changes nothing, the centroid
 * lies within the bounding box of the points, and the centroidal moments are non-negative
 * for a non-negative depth.
 */
module SectionTheory {
  import opened Geometry
  import opened SectionProperties

  /** Every pair of consecutive points coincides: the polyline has no length. */
  predicate Coincident(pts: seq<Point>)
  {
    forall i :: 0 <= i < |pts| - 1 ==> pts[i] == pts[i + 1]
  }

  /** The length of the polyline through pts, counting every pair of consecutive points. */
  function PolylineLength(sqrt: real -> real, pts: seq<Point>): real
  {
    if |pts| < 2 then 0.0
    else PolylineLength(sqrt, pts[..|pts| - 1]) + Distance(sqrt, pts[|pts| - 2], pts[|pts| - 1])
  }

  /** A segment as the first loop records it: distinct endpoints, their distance and their midpoint. */
  ghost predicate Recorded(sqrt: real -> real, s: Segment)
  {
    s.p1 != s.p2 && 0.0 < s.l && s.l == Distance(sqrt, s.p1, s.p2)
    && s.xm == (s.p1.x + s.p2.x) / 2.0 && s.ym == (s.p1.y + s.p2.y) / 2.0
  }

  predicate InBox(p: Point, lo: Point, hi: Point)
  {
    lo.x <= p.x <= hi.x && lo.y <= p.y <= hi.y
  }

  /** Every recorded segment joins two distinct points at a positive distance. */
  lemma {:induction false} SegmentsRecorded(sqrt: real -> real, pts: seq<Point>)
    requires IsSqrt(sqrt)
    ensures forall s | s in Segments(sqrt, pts) :: Recorded(sqrt, s)
  {
    if 2 <= |pts| {
      SegmentsRecorded(sqrt, pts[..|pts| - 1]);
      DistanceFacts(sqrt, pts[|pts| - 2], pts[|pts| - 1]);
    }
  }

  /** The indices i of the pairs of distinct consecutive points pts[i], pts[i + 1], in increasing order. */
  function DistinctPairs(pts: seq<Point>): seq<nat>
  {
    if |pts| < 2 then []
    else DistinctPairs(pts[..|pts| - 1]) + (if pts[|pts| - 2] == pts[|pts| - 1] then [] else [|pts| - 2])
  }

  /**
   * DistinctPairs lists, in strictly increasing order, exactly the indices i at which
   * pts[i] and pts[i + 1] differ.
   */
  lemma {:induction false} DistinctPairsFacts(pts: seq<Point>)
    ensures forall j :: 0 <= j < |DistinctPairs(pts)| ==>
      DistinctPairs(pts)[j] + 1 < |pts| && pts[DistinctPairs(pts)[j]] != pts[DistinctPairs(pts)[j] + 1]
    ensures forall j, k :: 0 <= j < k < |DistinctPairs(pts)| ==> DistinctPairs(pts)[j] < DistinctPairs(pts)[k]
    ensures forall i :: 0 <= i < |pts| - 1 && pts[i] != pts[i + 1] ==> i in DistinctPairs(pts)
  {
    if 2 <= |pts| {
      var n := |pts|;
      var prefix := pts[..n - 1];
      DistinctPairsFacts(prefix);
      var ps' := DistinctPairs(prefix);
      assert |prefix| == n - 1;
      assert forall j :: 0 <= j < |ps'| ==> ps'[j] + 1 < |prefix|;
      assert forall i :: 0 <= i < n - 1 ==> prefix[i] == pts[i];
      forall i | 0 <= i < n - 1 && pts[i] != pts[i + 1]
        ensures i in DistinctPairs(pts)
      {
        if i < n - 2 {
          assert prefix[i] != prefix[i + 1];
        }
      }
    }
  }

  /**
   * The first loop records, in order, one segment for each pair of distinct consecutive
   * points: the j-th recorded segment runs from pts[i] to pts[i + 1] for the j-th index i of
   * DistinctPairs, with its length and midpoint.
   */
  lemma {:induction false} SegmentsFollowPairs(sqrt: real -> real, pts: seq<Point>)
    requires IsSqrt(sqrt)
    ensures |Segments(sqrt, pts)| == |DistinctPairs(pts)|
    ensures forall j :: 0 <= j < |DistinctPairs(pts)| ==> DistinctPairs(pts)[j] + 1 < |pts|
    ensures forall j :: 0 <= j < |Segments(sqrt, pts)| ==>
      Segments(sqrt, pts)[j] == MakeSegment(sqrt, pts[DistinctPairs(pts)[j]], pts[DistinctPairs(pts)[j] + 1])
  {
    DistinctPairsFacts(pts);
    if 2 <= |pts| {
      var n := |pts|;
      var prefix := pts[..n - 1];
      SegmentsFollowPairs(sqrt, prefix);
      DistinctPairsFacts(prefix);
      DistanceFacts(sqrt, pts[n - 2], pts[n - 1]);
      var ps', segs' := DistinctPairs(prefix), Segments(sqrt, prefix);
      forall j | 0 <= j < |segs'|
        ensures Segments(sqrt, pts)[j] == MakeSegment(sqrt, pts[DistinctPairs(pts)[j]], pts[DistinctPairs(pts)[j] + 1])
      {
        assert Segments(sqrt, pts)[j] == segs'[j];
        assert DistinctPairs(pts)[j] == ps'[j];
        assert prefix[ps'[j]] == pts[ps'[j]] && prefix[ps'[j] + 1] == pts[ps'[j] + 1];
      }
    }
  }

  /** The first loop records at most one segment per pair of consecutive points. */
  lemma {:induction false} SegmentsCount(sqrt: real -> real, pts: seq<Point>)
    ensures |Segments(sqrt, pts)| <= if |pts| == 0 then 0 else |pts| - 1
  {
    if 2 <= |pts| {
      SegmentsCount(sqrt, pts[..|pts| - 1]);
    }
  }

  /** Appending a segment adds its length to the total. */
  lemma TotalLengthAppend(segs: seq<Segment>, s: Segment)
    ensures TotalLength(segs + [s]) == TotalLength(segs) + s.l
  {
    assert (segs + [s])[..|segs|] == segs;
  }

  /** The perimeter bo is the length of the whole polyline: skipping zero-length pairs loses nothing. */
  lemma {:induction false} PerimeterIsPolylineLength(sqrt: real -> real, pts: seq<Point>)
    ensures TotalLength(Segments(sqrt, pts)) == PolylineLength(sqrt, pts)
  {
    if 2 <= |pts| {
      PerimeterIsPolylineLength(sqrt, pts[..|pts| - 1]);
      var prefix := Segments(sqrt, pts[..|pts| - 1]);
      var s := MakeSegment(sqrt, pts[|pts| - 2], pts[|pts| - 1]);
      if s.l == 0.0 {
        assert Segments(sqrt, pts) == prefix + [];
        assert prefix + [] == prefix;
      } else {
        TotalLengthAppend(prefix, s);
      }
    }
  }

  /** A sum of positive lengths vanishes only when there are no segments. */
  lemma {:induction false} TotalLengthPositive(segs: seq<Segment>)
    requires forall s | s in segs :: 0.0 < s.l
    ensures segs == [] ==> TotalLength(segs) == 0.0
    ensures segs != [] ==> 0.0 < TotalLength(segs)
  {
    if segs != [] {
      var prefix := segs[..|segs| - 1];
      assert forall s | s in prefix :: s in segs;
      TotalLengthPositive(prefix);
    }
  }

  /** The first loop records no segment exactly when all consecutive points coincide. */
  lemma {:induction false} SegmentsEmptyIffCoincident(sqrt: real -> real, pts: seq<Point>)
    requires IsSqrt(sqrt)
    ensures Segments(sqrt, pts) == [] ==> Coincident(pts)
    ensures Coincident(pts) ==> Segments(sqrt, pts) == []
  {
    if 2 <= |pts| {
      var n := |pts|;
      var prefix := pts[..n - 1];
      SegmentsEmptyIffCoincident(sqrt, prefix);
      DistanceFacts(sqrt, pts[n - 2], pts[n - 1]);
      assert Coincident(pts) <==> Coincident(prefix) && pts[n - 2] == pts[n - 1] by {
        if Coincident(pts) {
          assert forall i :: 0 <= i < |prefix| ==> prefix[i] == pts[i];
        }
        if Coincident(prefix) && pts[n - 2] == pts[n - 1] {
          forall i | 0 <= i < n - 1
            ensures pts[i] == pts[i + 1]
          {
            if i < n - 2 {
              assert prefix[i] == prefix[i + 1];
            }
          }
        }
      }
    }
  }

  /** The calculator returns no result exactly when every pair of consecutive points coincides. */
  lemma NoneIffCoincident(sqrt: real -> real, pts: seq<Point>, d: real)
    requires IsSqrt(sqrt)
    ensures Section(sqrt, pts, d).None? ==> Coincident(pts)
    ensures Coincident(pts) ==> Section(sqrt, pts, d).None?
  {
    SegmentsRecorded(sqrt, pts);
    TotalLengthPositive(Segments(sqrt, pts));
    SegmentsEmptyIffCoincident(sqrt, pts);
  }

  /** Removing a point that repeats its predecessor leaves the recorded segments unchanged. */
  lemma {:induction false} RemoveRepeatedPoint(sqrt: real -> real, pts: seq<Point>, k: nat)
    requires IsSqrt(sqrt)
    requires k + 1 < |pts| && pts[k] == pts[k + 1]
    ensures Segments(sqrt, pts[..k + 1] + pts[k + 2..]) == Segments(sqrt, pts)
  {
    var n := |pts|;
    var q := pts[..k + 1] + pts[k + 2..];
    DistanceFacts(sqrt, pts[n - 2], pts[n - 1]);
    if k + 2 == n {
      assert q == pts[..n - 1];
    } else {
      var prefix := pts[..n - 1];
      RemoveRepeatedPoint(sqrt, prefix, k);
      assert q[..|q| - 1] == prefix[..k + 1] + prefix[k + 2..];
      assert q[|q| - 2] == pts[n - 2];
      assert q[|q| - 1] == pts[n - 1];
      var last := MakeSegment(sqrt, pts[n - 2], pts[n - 1]);
      assert Segments(sqrt, q) == Segments(sqrt, q[..|q| - 1]) + (if last.l == 0.0 then [] else [last]);
    }
  }

  /** Hence a repeated point does not change the calculator's result. */
  lemma SectionIgnoresRepeatedPoint(sqrt: real -> real, pts: seq<Point>, k: nat, d: real)
    requires IsSqrt(sqrt)
    requires k + 1 < |pts| && pts[k] == pts[k + 1]
    ensures Section(sqrt, pts[..k + 1] + pts[k + 2..], d) == Section(sqrt, pts, d)
  {
    RemoveRepeatedPoint(sqrt, pts, k);
  }

  /** The calculator returns properties exactly when the polyline has a length, and then bo is that length and Ac is bo * d. */
  lemma SectionOfLength(sqrt: real -> real, pts: seq<Point>, d: real)
    requires IsSqrt(sqrt)
    ensures Section(sqrt, pts, d).None? <==> PolylineLength(sqrt, pts) == 0.0
    ensures Section(sqrt, pts, d).Some? ==>
      && Section(sqrt, pts, d).value.bo == PolylineLength(sqrt, pts)
      && Section(sqrt, pts, d).value.ac == PolylineLength(sqrt, pts) * d
  {
    PerimeterIsPolylineLength(sqrt, pts);
    if Section(sqrt, pts, d).Some? {
      PerimeterAndArea(sqrt, pts, d);
    }
  }

  /** The result, field by field, in terms of the specification functions. */
  lemma SectionFields(sqrt: real -> real, pts: seq<Point>, d: real)
    requires Section(sqrt, pts, d).Some?
    ensures var p := Section(sqrt, pts, d).value;
      && p.segments == Segments(sqrt, pts)
      && p.bo == TotalLength(p.segments) && p.bo != 0.0
      && p.ac == p.bo * d
      && p.centroid == Centroid(p.segments, p.bo)
      && p.jcx == InertiaX(p.segments, p.centroid.x, p.centroid.y, d)
      && p.jcy == InertiaY(p.segments, p.centroid.x, p.centroid.y, d)
      && p.jxy == ProductOfInertia(p.segments, p.centroid.x, p.centroid.y, d)
      && p.jMajor == (p.jcx + p.jcy) / 2.0 + MohrRadius(sqrt, p.jcx, p.jcy, p.jxy)
      && p.jMinor == (p.jcx + p.jcy) / 2.0 - MohrRadius(sqrt, p.jcx, p.jcy, p.jxy)
      && p.theta == PrincipalAngle(p.jcx, p.jcy, p.jxy)
  {
    var segs := Segments(sqrt, pts);
    var c := Centroid(segs, TotalLength(segs));
    var jcx, jcy, jxy := InertiaX(segs, c.x, c.y, d), InertiaY(segs, c.x, c.y, d), ProductOfInertia(segs, c.x, c.y, d);
    var r := MohrRadius(sqrt, jcx, jcy, jxy);
    SummaryOf(sqrt, segs, TotalLength(segs), c, d, jcx, jcy, jxy, (jcx + jcy) / 2.0 + r, (jcx + jcy) / 2.0 - r, PrincipalAngle(jcx, jcy, jxy));
    AreaIsPerimeterTimesDepth(sqrt, pts, d);
  }

  /** The area is the perimeter times the depth. */
  lemma AreaIsPerimeterTimesDepth(sqrt: real -> real, pts: seq<Point>, d: real)
    requires Section(sqrt, pts, d).Some?
    ensures Section(sqrt, pts, d).value.ac == Section(sqrt, pts, d).value.bo * d
  {
  }

  /** The perimeter is the positive length of the polyline and the area is the perimeter times d. */
  lemma PerimeterAndArea(sqrt: real -> real, pts: seq<Point>, d: real)
    requires IsSqrt(sqrt)
    requires Section(sqrt, pts, d).Some?
    ensures Section(sqrt, pts, d).value.bo == PolylineLength(sqrt, pts)
    ensures 0.0 < Section(sqrt, pts, d).value.bo
    ensures Section(sqrt, pts, d).value.ac == Section(sqrt, pts, d).value.bo * d
  {
    AreaIsPerimeterTimesDepth(sqrt, pts, d);
    SectionFields(sqrt, pts, d);
    PerimeterIsPolylineLength(sqrt, pts);
    SegmentsRecorded(sqrt, pts);
    TotalLengthPositive(Segments(sqrt, pts));
  }

  /** The midpoint of every recorded segment lies in any box that holds all the points. */
  lemma {:induction false} MidpointsInBox(sqrt: real -> real, pts: seq<Point>, lo: Point, hi: Point)
    requires forall i :: 0 <= i < |pts| ==> InBox(pts[i], lo, hi)
    ensures forall s | s in Segments(sqrt, pts) :: InBox(Point(s.xm, s.ym), lo, hi)
  {
    if 2 <= |pts| {
      var prefix := pts[..|pts| - 1];
      assert forall i :: 0 <= i < |prefix| ==> prefix[i] == pts[i];
      MidpointsInBox(sqrt, prefix, lo, hi);
      assert InBox(pts[|pts| - 2], lo, hi) && InBox(pts[|pts| - 1], lo, hi);
    }
  }

  /** The first moment about the y axis lies between the total length times the bounds of x. */
  lemma {:induction false} MomentYBounds(segs: seq<Segment>, lo: real, hi: real)
    requires forall i :: 0 <= i < |segs| ==> 0.0 <= segs[i].l && lo <= segs[i].xm <= hi
    ensures lo * TotalLength(segs) <= MomentY(segs) <= hi * TotalLength(segs)
  {
    if segs != [] {
      var prefix := segs[..|segs| - 1];
      var s := segs[|segs| - 1];
      assert forall i :: 0 <= i < |prefix| ==> prefix[i] == segs[i];
      MomentYBounds(prefix, lo, hi);
      WeightedStep(TotalLength(prefix), MomentY(prefix), s.l, s.xm, lo, hi, TotalLength(segs), MomentY(segs));
    }
  }


  /** The first moment about the x axis lies between the total length times the bounds of y. */
  lemma {:induction false} MomentXBounds(segs: seq<Segment>, lo: real, hi: real)
    requires forall i :: 0 <= i < |segs| ==> 0.0 <= segs[i].l && lo <= segs[i].ym <= hi
    ensures lo * TotalLength(segs) <= MomentX(segs) <= hi * TotalLength(segs)
  {
    if segs != [] {
      var prefix := segs[..|segs| - 1];
      var s := segs[|segs| - 1];
      assert forall i :: 0 <= i < |prefix| ==> prefix[i] == segs[i];
      MomentXBounds(prefix, lo, hi);
      WeightedStep(TotalLength(prefix), MomentX(prefix), s.l, s.ym, lo, hi, TotalLength(segs), MomentX(segs));
    }
  }


  /**
   * Adding a weight l at a value m between lo and hi to a weighted sum m' of weight t that
   * lies between lo and hi times t gives a sum between lo and hi times the new weight.
   */
  lemma WeightedStep(t: real, m': real, l: real, m: real, lo: real, hi: real, total: real, moment: real)
    requires lo * t <= m' <= hi * t
    requires 0.0 <= l && lo <= m <= hi
    requires total == t + l && moment == m' + l * m
    ensures lo * total <= moment <= hi * total
  {
    MulLeft(l, lo, m);
    MulLeft(l, m, hi);
    assert lo * (t + l) == lo * t + l * lo;
    assert hi * (t + l) == hi * t + l * hi;
  }

  /** Dividing by a positive total keeps a weighted sum between its bounds. */
  lemma QuotientBounds(a: real, t: real, lo: real, hi: real)
    requires 0.0 < t && lo * t <= a <= hi * t
    ensures lo <= a / t <= hi
  {
    var q := a / t;
    assert q * t == a;
    if q < lo {
      MulPositive(lo - q, t);
      assert false;
    }
    if hi < q {
      MulPositive(q - hi, t);
      assert false;
    }
  }

  /** The centroid is a length-weighted mean of the midpoints, so it lies in every box that holds the points. */
  lemma CentroidInBoundingBox(sqrt: real -> real, pts: seq<Point>, d: real, lo: Point, hi: Point)
    requires IsSqrt(sqrt)
    requires forall i :: 0 <= i < |pts| ==> InBox(pts[i], lo, hi)
    requires Section(sqrt, pts, d).Some?
    ensures InBox(Section(sqrt, pts, d).value.centroid, lo, hi)
  {
    SegmentsRecorded(sqrt, pts);
    MidpointsInBox(sqrt, pts, lo, hi);
    BoxedCentroid(Segments(sqrt, pts), lo, hi);
  }

  /** The centroid of segments of positive length whose midpoints lie in a box lies in that box. */
  lemma BoxedCentroid(segs: seq<Segment>, lo: Point, hi: Point)
    requires segs != []
    requires forall s | s in segs :: 0.0 < s.l && InBox(Point(s.xm, s.ym), lo, hi)
    ensures 0.0 < TotalLength(segs)
    ensures InBox(Centroid(segs, TotalLength(segs)), lo, hi)
  {
    TotalLengthPositive(segs);
    assert forall i :: 0 <= i < |segs| ==> 0.0 <= segs[i].l && InBox(Point(segs[i].xm, segs[i].ym), lo, hi) by {
      forall i | 0 <= i < |segs|
        ensures 0.0 <= segs[i].l && InBox(Point(segs[i].xm, segs[i].ym), lo, hi)
      {
        assert segs[i] in segs;
      }
    }
    CentroidXBounds(segs, lo.x, hi.x);
    CentroidYBounds(segs, lo.y, hi.y);
  }

  lemma CentroidXBounds(segs: seq<Segment>, lo: real, hi: real)
    requires 0.0 < TotalLength(segs)
    requires forall i :: 0 <= i < |segs| ==> 0.0 <= segs[i].l && lo <= segs[i].xm <= hi
    ensures lo <= MomentY(segs) / TotalLength(segs) <= hi
  {
    MomentYBounds(segs, lo, hi);
    QuotientBounds(MomentY(segs), TotalLength(segs), lo, hi);
  }

  lemma CentroidYBounds(segs: seq<Segment>, lo: real, hi: real)
    requires 0.0 < TotalLength(segs)
    requires forall i :: 0 <= i < |segs| ==> 0.0 <= segs[i].l && lo <= segs[i].ym <= hi
    ensures lo <= MomentX(segs) / TotalLength(segs) <= hi
  {
    MomentXBounds(segs, lo, hi);
    QuotientBounds(MomentX(segs), TotalLength(segs), lo, hi);
  }

  /** The factor of equations B.8 and B.9 is never negative: 2 (a^2 + ab + b^2) = a^2 + b^2 + (a + b)^2. */
  lemma SquareTermNonNegative(a: real, b: real)
    ensures 0.0 <= SquareTerm(a, b)
  {
    var c := a + b;
    SquareNonNegative(a);
    SquareNonNegative(b);
    SquareNonNegative(c);
    assert c * c == a * a + 2.0 * (a * b) + b * b;
  }

  /** For a non-negative depth and non-negative lengths the sums of B.8 and B.9 are non-negative. */
  lemma {:induction false} InertiaNonNegative(segs: seq<Segment>, xBar: real, yBar: real, d: real)
    requires 0.0 <= d
    requires forall s | s in segs :: 0.0 <= s.l
    ensures 0.0 <= InertiaX(segs, xBar, yBar, d)
    ensures 0.0 <= InertiaY(segs, xBar, yBar, d)
  {
    if segs != [] {
      var prefix := segs[..|segs| - 1];
      var s := segs[|segs| - 1];
      assert forall t | t in prefix :: t in segs;
      InertiaNonNegative(prefix, xBar, yBar, d);
      var k := d * (s.l / 3.0);
      MulNonNegative(d, s.l / 3.0);
      SquareTermNonNegative(s.p1.y - yBar, s.p2.y - yBar);
      SquareTermNonNegative(s.p1.x - xBar, s.p2.x - xBar);
      MulNonNegative(k, SquareTerm(s.p1.y - yBar, s.p2.y - yBar));
      MulNonNegative(k, SquareTerm(s.p1.x - xBar, s.p2.x - xBar));
    }
  }

  /** The centroidal moments Jcx and Jcy of a section of non-negative depth are non-negative. */
  lemma SectionInertiaNonNegative(sqrt: real -> real, pts: seq<Point>, d: real)
    requires IsSqrt(sqrt) && 0.0 <= d
    requires Section(sqrt, pts, d).Some?
    ensures 0.0 <= Section(sqrt, pts, d).value.jcx
    ensures 0.0 <= Section(sqrt, pts, d).value.jcy
  {
    SectionFields(sqrt, pts, d);
    SegmentsRecorded(sqrt, pts);
    var p := Section(sqrt, pts, d).value;
    InertiaNonNegative(p.segments, p.centroid.x, p.centroid.y, d);
  }
}
