/**
 * The section properties of the shapes the generator produces: the interior octagon has its
 * centroid at the column centre and no product of inertia, and the edge chain has its
 * centroid on the column's x axis, shifted away from the free edge, and no product of
 * inertia either. Every sum is first taken over all consecutive pairs of points, zero-length
 * ones included, which the first loop's skipping does not change.
 */
module GeneratedSections {
  import opened Geometry
  import opened SectionProperties
  import opened SectionTheory
  import opened PrincipalAxes
  import opened CriticalSection
  import opened Layout

  /** Every pair of consecutive points as a segment, the zero-length pairs included. */
  function Pairs(sqrt: real -> real, pts: seq<Point>): seq<Segment>
  {
    if |pts| < 2 then []
    else Pairs(sqrt, pts[..|pts| - 1]) + [MakeSegment(sqrt, pts[|pts| - 2], pts[|pts| - 1])]
  }

  /** Appending a segment adds its own terms to the first moments. */
  lemma AppendMoments(segs: seq<Segment>, s: Segment)
    ensures MomentX(segs + [s]) == MomentX(segs) + s.l * s.ym
    ensures MomentY(segs + [s]) == MomentY(segs) + s.l * s.xm
  {
    assert (segs + [s])[..|segs|] == segs;
  }

  /** Appending a segment adds its own contributions to the second moments. */
  lemma AppendInertia(segs: seq<Segment>, s: Segment, xBar: real, yBar: real, d: real)
    ensures InertiaX(segs + [s], xBar, yBar, d) == InertiaX(segs, xBar, yBar, d) + ContributionX(s, xBar, yBar, d)
    ensures InertiaY(segs + [s], xBar, yBar, d) == InertiaY(segs, xBar, yBar, d) + ContributionY(s, xBar, yBar, d)
    ensures ProductOfInertia(segs + [s], xBar, yBar, d) == ProductOfInertia(segs, xBar, yBar, d) + ContributionXY(s, xBar, yBar, d)
  {
    assert (segs + [s])[..|segs|] == segs;
  }

  /** The first moments of the recorded segments are those of all the pairs: a skipped pair has length zero. */
  lemma {:induction false} PairMoments(sqrt: real -> real, pts: seq<Point>)
    ensures MomentX(Segments(sqrt, pts)) == MomentX(Pairs(sqrt, pts))
    ensures MomentY(Segments(sqrt, pts)) == MomentY(Pairs(sqrt, pts))
  {
    if 2 <= |pts| {
      var prefix := pts[..|pts| - 1];
      PairMoments(sqrt, prefix);
      var s := MakeSegment(sqrt, pts[|pts| - 2], pts[|pts| - 1]);
      AppendMoments(Pairs(sqrt, prefix), s);
      if s.l == 0.0 {
        assert Segments(sqrt, pts) == Segments(sqrt, prefix) + [];
        assert Segments(sqrt, prefix) + [] == Segments(sqrt, prefix);
      } else {
        AppendMoments(Segments(sqrt, prefix), s);
      }
    }
  }

  /** The second moments of the recorded segments are those of all the pairs. */
  lemma {:induction false} PairInertia(sqrt: real -> real, pts: seq<Point>, xBar: real, yBar: real, d: real)
    ensures InertiaX(Segments(sqrt, pts), xBar, yBar, d) == InertiaX(Pairs(sqrt, pts), xBar, yBar, d)
    ensures InertiaY(Segments(sqrt, pts), xBar, yBar, d) == InertiaY(Pairs(sqrt, pts), xBar, yBar, d)
    ensures ProductOfInertia(Segments(sqrt, pts), xBar, yBar, d) == ProductOfInertia(Pairs(sqrt, pts), xBar, yBar, d)
  {
    if 2 <= |pts| {
      var prefix := pts[..|pts| - 1];
      PairInertia(sqrt, prefix, xBar, yBar, d);
      var s := MakeSegment(sqrt, pts[|pts| - 2], pts[|pts| - 1]);
      AppendInertia(Pairs(sqrt, prefix), s, xBar, yBar, d);
      if s.l == 0.0 {
        assert Segments(sqrt, pts) == Segments(sqrt, prefix) + [];
        assert Segments(sqrt, prefix) + [] == Segments(sqrt, prefix);
      } else {
        AppendInertia(Segments(sqrt, prefix), s, xBar, yBar, d);
      }
    }
  }

  /** The pairs are the consecutive points, one segment for each. */
  lemma {:induction false} PairsAt(sqrt: real -> real, pts: seq<Point>)
    ensures |Pairs(sqrt, pts)| == if |pts| < 2 then 0 else |pts| - 1
    ensures forall i :: 0 <= i < |Pairs(sqrt, pts)| ==> Pairs(sqrt, pts)[i] == MakeSegment(sqrt, pts[i], pts[i + 1])
  {
    if 2 <= |pts| {
      var prefix := pts[..|pts| - 1];
      PairsAt(sqrt, prefix);
    }
  }

  /** The pairs of a prefix of the points are a prefix of the pairs. */
  lemma PairsPrefix(sqrt: real -> real, pts: seq<Point>, k: nat)
    requires 1 <= k <= |pts|
    ensures |Pairs(sqrt, pts)| == |pts| - 1
    ensures Pairs(sqrt, pts[..k]) == Pairs(sqrt, pts)[..k - 1]
  {
    PairsAt(sqrt, pts);
    PairsAt(sqrt, pts[..k]);
    var all, front := Pairs(sqrt, pts), Pairs(sqrt, pts[..k]);
    forall i | 0 <= i < k - 1
      ensures front[i] == all[i]
    {
      assert pts[..k][i] == pts[i] && pts[..k][i + 1] == pts[i + 1];
    }
  }

  /** pts are the nine points of the octagon around a Cx by Cy column at distance dist, as the generator lists them. */
  predicate IsOctagon(pts: seq<Point>, cx: real, cy: real, dist: real)
  {
    var hx, hy := cx / 2.0, cy / 2.0;
    var xF, yF := hx + dist, hy + dist;
    && |pts| == 9
    && pts[0] == Point(-hx, yF) && pts[1] == Point(hx, yF)
    && pts[2] == Point(xF, hy) && pts[3] == Point(xF, -hy)
    && pts[4] == Point(hx, -yF) && pts[5] == Point(-hx, -yF)
    && pts[6] == Point(-xF, -hy) && pts[7] == Point(-xF, hy)
    && pts[8] == Point(-hx, yF)
  }

  /** The generator's interior shape is that octagon. */
  lemma OctagonPoints(cx: real, cy: real, dist: real)
    ensures IsOctagon(Generate(cx, cy, dist, Interior), cx, cy, dist)
  {
  }

  /**
   * segs begin with the edge chain's five sides, the first five of the octagon: the far face
   * as long as the column, a chamfer of length c, the side face as long as the column is deep,
   * a chamfer and the near face, each with its midpoint.
   */
  predicate BeginsWithEdgeChain(segs: seq<Segment>, cx: real, cy: real, dist: real, c: real)
  {
    var hx, hy := cx / 2.0, cy / 2.0;
    var xF, yF := hx + dist, hy + dist;
    var mx, my := (xF + hx) / 2.0, (yF + hy) / 2.0;
    && 5 <= |segs|
    && segs[0] == Segment(Point(-hx, yF), Point(hx, yF), cx, 0.0, yF)
    && segs[1] == Segment(Point(hx, yF), Point(xF, hy), c, mx, my)
    && segs[2] == Segment(Point(xF, hy), Point(xF, -hy), cy, xF, 0.0)
    && segs[3] == Segment(Point(xF, -hy), Point(hx, -yF), c, mx, -my)
    && segs[4] == Segment(Point(hx, -yF), Point(-hx, -yF), cx, 0.0, -yF)
  }

  /** segs are the octagon's eight sides: the edge chain, a chamfer, the other side face and a last chamfer. */
  predicate IsOctagonSides(segs: seq<Segment>, cx: real, cy: real, dist: real, c: real)
  {
    var hx, hy := cx / 2.0, cy / 2.0;
    var xF, yF := hx + dist, hy + dist;
    var mx, my := (xF + hx) / 2.0, (yF + hy) / 2.0;
    && |segs| == 8
    && BeginsWithEdgeChain(segs, cx, cy, dist, c)
    && segs[5] == Segment(Point(-hx, -yF), Point(-xF, -hy), c, -mx, -my)
    && segs[6] == Segment(Point(-xF, -hy), Point(-xF, hy), cy, -xF, 0.0)
    && segs[7] == Segment(Point(-xF, hy), Point(-hx, yF), c, -mx, my)
  }

  /** The octagon's first five sides are the edge chain. */
  lemma EdgeChainOfOctagon(segs: seq<Segment>, cx: real, cy: real, dist: real, c: real)
    requires IsOctagonSides(segs, cx, cy, dist, c)
    ensures BeginsWithEdgeChain(segs[..5], cx, cy, dist, c)
  {
  }

  /** The pairs of the octagon's points are its eight sides. */
  lemma OctagonSides(sqrt: real -> real, pts: seq<Point>, cx: real, cy: real, dist: real)
    requires IsSqrt(sqrt)
    requires 0.0 <= cx && 0.0 <= cy
    requires IsOctagon(pts, cx, cy, dist)
    ensures IsOctagonSides(Pairs(sqrt, pts), cx, cy, dist, Chamfer(sqrt, dist))
  {
    var hx, hy := cx / 2.0, cy / 2.0;
    PairsAt(sqrt, pts);
    HorizontalSide(sqrt, -hx, hx, hy + dist);
    HorizontalSide(sqrt, hx, -hx, -(hy + dist));
    VerticalSide(sqrt, hx + dist, hy, -hy);
    VerticalSide(sqrt, -(hx + dist), -hy, hy);
    DiagonalSide(sqrt, pts[1], pts[2], dist);
    DiagonalSide(sqrt, pts[3], pts[4], dist);
    DiagonalSide(sqrt, pts[5], pts[6], dist);
    DiagonalSide(sqrt, pts[7], pts[8], dist);
  }

  /** The sum of a sequence of numbers, the last one added last. */
  function Sum(vs: seq<real>): real
  {
    if vs == [] then 0.0 else Sum(vs[..|vs| - 1]) + vs[|vs| - 1]
  }

  lemma SumStep(vs: seq<real>, k: nat)
    requires 1 <= k <= |vs|
    ensures Sum(vs[..k]) == Sum(vs[..k - 1]) + vs[k - 1]
  {
    assert vs[..k][..k - 1] == vs[..k - 1];
  }

  /** The sums of five and of eight numbers, term by term. */
  lemma SumsOfFiveAndEight(vs: seq<real>)
    requires 5 <= |vs| <= 8
    ensures Sum(vs[..5]) == vs[0] + vs[1] + vs[2] + vs[3] + vs[4]
    ensures |vs| == 5 ==> Sum(vs) == vs[0] + vs[1] + vs[2] + vs[3] + vs[4]
    ensures |vs| == 8 ==> Sum(vs) == vs[0] + vs[1] + vs[2] + vs[3] + vs[4] + vs[5] + vs[6] + vs[7]
  {
    assert vs[..0] == [];
    SumStep(vs, 1); SumStep(vs, 2); SumStep(vs, 3); SumStep(vs, 4); SumStep(vs, 5);
    if |vs| == 5 {
      assert vs[..5] == vs;
    }
    if |vs| == 8 {
      SumStep(vs, 6); SumStep(vs, 7); SumStep(vs, 8);
      assert vs[..8] == vs;
    }
  }

  /** Each segment's term of the first moment about the x axis, l * ym. */
  function MomentXTerms(segs: seq<Segment>): (vs: seq<real>)
    ensures |vs| == |segs|
    ensures forall i :: 0 <= i < |segs| ==> vs[i] == segs[i].l * segs[i].ym
  {
    seq(|segs|, i requires 0 <= i < |segs| => segs[i].l * segs[i].ym)
  }

  /** Each segment's term of the first moment about the y axis, l * xm. */
  function MomentYTerms(segs: seq<Segment>): (vs: seq<real>)
    ensures |vs| == |segs|
    ensures forall i :: 0 <= i < |segs| ==> vs[i] == segs[i].l * segs[i].xm
  {
    seq(|segs|, i requires 0 <= i < |segs| => segs[i].l * segs[i].xm)
  }

  /** The first moments are the sums of the segments' terms. */
  lemma {:induction false} MomentsAsSums(segs: seq<Segment>)
    ensures MomentX(segs) == Sum(MomentXTerms(segs))
    ensures MomentY(segs) == Sum(MomentYTerms(segs))
  {
    if segs != [] {
      var n := |segs|;
      var front := segs[..n - 1];
      MomentsAsSums(front);
      forall i | 0 <= i < n - 1
        ensures MomentXTerms(segs)[i] == MomentXTerms(front)[i] && MomentYTerms(segs)[i] == MomentYTerms(front)[i]
      {
        assert front[i] == segs[i];
      }
      assert MomentXTerms(segs)[..n - 1] == MomentXTerms(front);
      assert MomentYTerms(segs)[..n - 1] == MomentYTerms(front);
    }
  }

  /** Two segments mirroring each other in an axis, with the same length, have opposite first moments about it. */
  lemma MirroredMoments(segs: seq<Segment>, i: nat, j: nat)
    requires i < |segs| && j < |segs|
    ensures segs[j].l == segs[i].l && segs[j].ym == -segs[i].ym ==> MomentXTerms(segs)[i] + MomentXTerms(segs)[j] == 0.0
    ensures segs[j].l == segs[i].l && segs[j].xm == -segs[i].xm ==> MomentYTerms(segs)[i] + MomentYTerms(segs)[j] == 0.0
  {
  }

  /** Two chamfers of length c, both with their midpoints at (cx + dist) / 2, make a moment of c * (cx + dist). */
  lemma ChamferPairMoment(segs: seq<Segment>, i: nat, j: nat, c: real, cx: real, dist: real)
    requires i < |segs| && j < |segs|
    requires segs[i].l == c && segs[j].l == c
    requires segs[i].xm == (cx / 2.0 + dist + cx / 2.0) / 2.0 && segs[j].xm == segs[i].xm
    ensures MomentYTerms(segs)[i] + MomentYTerms(segs)[j] == c * (cx + dist)
  {
  }

  /** A segment of length l with its midpoint at xm has l * xm as its moment about the y axis. */
  lemma SideMoment(segs: seq<Segment>, i: nat, l: real, xm: real)
    requires i < |segs| && segs[i].l == l && segs[i].xm == xm
    ensures MomentYTerms(segs)[i] == l * xm
  {
  }

  /** The edge chain's first moment about the x axis vanishes: its faces and its chamfers cancel in pairs. */
  lemma EdgeChainMomentX(segs: seq<Segment>, cx: real, cy: real, dist: real, c: real)
    requires |segs| == 5 && BeginsWithEdgeChain(segs, cx, cy, dist, c)
    ensures MomentX(segs) == 0.0
  {
    MomentsAsSums(segs);
    SumsOfFiveAndEight(MomentXTerms(segs));
    MirroredMoments(segs, 0, 4);
    MirroredMoments(segs, 1, 3);
    MirroredMoments(segs, 2, 2);
  }

  /**
   * The edge chain's first moment about the y axis is that of its side face and its two
   * chamfers: the far and near faces, centred on the axis, add nothing.
   */
  lemma EdgeChainMomentY(segs: seq<Segment>, cx: real, cy: real, dist: real, c: real)
    requires |segs| == 5 && BeginsWithEdgeChain(segs, cx, cy, dist, c)
    ensures MomentY(segs) == c * (cx + dist) + cy * (cx / 2.0 + dist)
  {
    MomentsAsSums(segs);
    SumsOfFiveAndEight(MomentYTerms(segs));
    EdgeChainMomentYTerms(segs, cx, cy, dist, c);
  }

  /** The terms of the edge chain's moment about the y axis: faces cancelling, chamfers adding up. */
  lemma EdgeChainMomentYTerms(segs: seq<Segment>, cx: real, cy: real, dist: real, c: real)
    requires |segs| == 5 && BeginsWithEdgeChain(segs, cx, cy, dist, c)
    ensures var vy := MomentYTerms(segs);
      vy[0] + vy[4] == 0.0 && vy[1] + vy[3] == c * (cx + dist) && vy[2] == cy * (cx / 2.0 + dist)
  {
    MirroredMoments(segs, 0, 4);
    ChamferPairMoment(segs, 1, 3, c, cx, dist);
    SideMoment(segs, 2, cy, cx / 2.0 + dist);
  }

  /** The octagon's first moment about the x axis vanishes. */
  lemma OctagonMomentX(segs: seq<Segment>, cx: real, cy: real, dist: real, c: real)
    requires IsOctagonSides(segs, cx, cy, dist, c)
    ensures MomentX(segs) == 0.0
  {
    MomentsAsSums(segs);
    SumsOfFiveAndEight(MomentXTerms(segs));
    MirroredMoments(segs, 0, 4);
    MirroredMoments(segs, 1, 3);
    MirroredMoments(segs, 5, 7);
    MirroredMoments(segs, 2, 6);
  }

  /** The octagon's first moment about the y axis vanishes. */
  lemma OctagonMomentY(segs: seq<Segment>, cx: real, cy: real, dist: real, c: real)
    requires IsOctagonSides(segs, cx, cy, dist, c)
    ensures MomentY(segs) == 0.0
  {
    MomentsAsSums(segs);
    SumsOfFiveAndEight(MomentYTerms(segs));
    MirroredMoments(segs, 0, 4);
    MirroredMoments(segs, 1, 5);
    MirroredMoments(segs, 3, 7);
    MirroredMoments(segs, 2, 6);
  }

  /** Each segment's B.8 term about (xBar, yBar). */
  function InertiaXTerms(segs: seq<Segment>, xBar: real, yBar: real, d: real): (vs: seq<real>)
    ensures |vs| == |segs|
    ensures forall i :: 0 <= i < |segs| ==> vs[i] == ContributionX(segs[i], xBar, yBar, d)
  {
    seq(|segs|, i requires 0 <= i < |segs| => ContributionX(segs[i], xBar, yBar, d))
  }

  /** Each segment's B.9 term about (xBar, yBar). */
  function InertiaYTerms(segs: seq<Segment>, xBar: real, yBar: real, d: real): (vs: seq<real>)
    ensures |vs| == |segs|
    ensures forall i :: 0 <= i < |segs| ==> vs[i] == ContributionY(segs[i], xBar, yBar, d)
  {
    seq(|segs|, i requires 0 <= i < |segs| => ContributionY(segs[i], xBar, yBar, d))
  }

  /** Each segment's B.11 term about (xBar, yBar). */
  function ProductTerms(segs: seq<Segment>, xBar: real, yBar: real, d: real): (vs: seq<real>)
    ensures |vs| == |segs|
    ensures forall i :: 0 <= i < |segs| ==> vs[i] == ContributionXY(segs[i], xBar, yBar, d)
  {
    seq(|segs|, i requires 0 <= i < |segs| => ContributionXY(segs[i], xBar, yBar, d))
  }

  /** The second moments are the sums of the segments' terms. */
  lemma {:induction false} InertiaAsSums(segs: seq<Segment>, xBar: real, yBar: real, d: real)
    ensures InertiaX(segs, xBar, yBar, d) == Sum(InertiaXTerms(segs, xBar, yBar, d))
    ensures InertiaY(segs, xBar, yBar, d) == Sum(InertiaYTerms(segs, xBar, yBar, d))
    ensures ProductOfInertia(segs, xBar, yBar, d) == Sum(ProductTerms(segs, xBar, yBar, d))
  {
    if segs != [] {
      var n := |segs|;
      InertiaAsSums(segs[..n - 1], xBar, yBar, d);
      assert InertiaXTerms(segs, xBar, yBar, d)[..n - 1] == InertiaXTerms(segs[..n - 1], xBar, yBar, d);
      assert InertiaYTerms(segs, xBar, yBar, d)[..n - 1] == InertiaYTerms(segs[..n - 1], xBar, yBar, d);
      assert ProductTerms(segs, xBar, yBar, d)[..n - 1] == ProductTerms(segs[..n - 1], xBar, yBar, d);
    }
  }

  /**
   * A segment and its mirror image in the x axis, traversed the other way, have opposite
   * B.11 terms about any point of that axis.
   */
  lemma MirroredProducts(a: real, b: real, c: real, e: real, l: real, xm: real, ym: real, xBar: real, d: real)
    ensures ContributionXY(Segment(Point(a, b), Point(c, e), l, xm, ym), xBar, 0.0, d)
            + ContributionXY(Segment(Point(c, -e), Point(a, -b), l, xm, -ym), xBar, 0.0, d) == 0.0
  {
    assert ProductTerm(c - xBar, -e, a - xBar, -b) == -ProductTerm(a - xBar, b, c - xBar, e);
  }

  /** The octagon has no product of inertia about its centre. */
  lemma OctagonProduct(segs: seq<Segment>, cx: real, cy: real, dist: real, c: real, d: real)
    requires IsOctagonSides(segs, cx, cy, dist, c)
    ensures ProductOfInertia(segs, 0.0, 0.0, d) == 0.0
  {
    var hx, hy := cx / 2.0, cy / 2.0;
    var xF, yF := hx + dist, hy + dist;
    var mx, my := (xF + hx) / 2.0, (yF + hy) / 2.0;
    InertiaAsSums(segs, 0.0, 0.0, d);
    SumsOfFiveAndEight(ProductTerms(segs, 0.0, 0.0, d));
    MirroredProducts(-hx, yF, hx, yF, cx, 0.0, yF, 0.0, d);
    MirroredProducts(hx, yF, xF, hy, c, mx, my, 0.0, d);
    MirroredProducts(xF, hy, xF, -hy, cy, xF, 0.0, 0.0, d);
    MirroredProducts(-hx, -yF, -xF, -hy, c, -mx, -my, 0.0, d);
    MirroredProducts(-xF, -hy, -xF, hy, cy, -xF, 0.0, 0.0, d);
  }

  /** The edge chain has no product of inertia about any point of the x axis. */
  lemma EdgeChainProduct(segs: seq<Segment>, cx: real, cy: real, dist: real, c: real, xBar: real, d: real)
    requires |segs| == 5 && BeginsWithEdgeChain(segs, cx, cy, dist, c)
    ensures ProductOfInertia(segs, xBar, 0.0, d) == 0.0
  {
    var hx, hy := cx / 2.0, cy / 2.0;
    var xF, yF := hx + dist, hy + dist;
    var mx, my := (xF + hx) / 2.0, (yF + hy) / 2.0;
    InertiaAsSums(segs, xBar, 0.0, d);
    SumsOfFiveAndEight(ProductTerms(segs, xBar, 0.0, d));
    MirroredProducts(-hx, yF, hx, yF, cx, 0.0, yF, xBar, d);
    MirroredProducts(hx, yF, xF, hy, c, mx, my, xBar, d);
    MirroredProducts(xF, hy, xF, -hy, cy, xF, 0.0, xBar, d);
  }

  /** The segments the first loop records for the interior octagon have no first moments and no product of inertia about the origin. */
  lemma OctagonSegments(sqrt: real -> real, cx: real, cy: real, dist: real, d: real)
    requires IsSqrt(sqrt)
    requires 0.0 <= cx && 0.0 <= cy
    ensures var segs := Segments(sqrt, Generate(cx, cy, dist, Interior));
      MomentX(segs) == 0.0 && MomentY(segs) == 0.0 && ProductOfInertia(segs, 0.0, 0.0, d) == 0.0
  {
    var pts := Generate(cx, cy, dist, Interior);
    var c := Chamfer(sqrt, dist);
    OctagonPoints(cx, cy, dist);
    OctagonSides(sqrt, pts, cx, cy, dist);
    OctagonMomentX(Pairs(sqrt, pts), cx, cy, dist, c);
    OctagonMomentY(Pairs(sqrt, pts), cx, cy, dist, c);
    OctagonProduct(Pairs(sqrt, pts), cx, cy, dist, c, d);
    PairMoments(sqrt, pts);
    PairInertia(sqrt, pts, 0.0, 0.0, d);
  }

  /**
   * The segments the first loop records for the edge chain: no first moment about the x axis,
   * the moment of the side face and the chamfers about the y axis, and no product of inertia
   * about any point of the x axis.
   */
  lemma EdgeChainSegments(sqrt: real -> real, cx: real, cy: real, dist: real, xBar: real, d: real)
    requires IsSqrt(sqrt)
    requires 0.0 <= cx && 0.0 <= cy
    ensures var segs := Segments(sqrt, Generate(cx, cy, dist, EdgeLeftFree));
      && MomentX(segs) == 0.0
      && MomentY(segs) == Chamfer(sqrt, dist) * (cx + dist) + cy * (cx / 2.0 + dist)
      && ProductOfInertia(segs, xBar, 0.0, d) == 0.0
  {
    var oct := Generate(cx, cy, dist, Interior);
    var pts := Generate(cx, cy, dist, EdgeLeftFree);
    var c := Chamfer(sqrt, dist);
    OpenShapesFollowOctagon(cx, cy, dist);
    OctagonPoints(cx, cy, dist);
    OctagonSides(sqrt, oct, cx, cy, dist);
    EdgeChainOfOctagon(Pairs(sqrt, oct), cx, cy, dist, c);
    PairsPrefix(sqrt, oct, 6);
    EdgeChainMomentX(Pairs(sqrt, pts), cx, cy, dist, c);
    EdgeChainMomentY(Pairs(sqrt, pts), cx, cy, dist, c);
    EdgeChainProduct(Pairs(sqrt, pts), cx, cy, dist, c, xBar, d);
    PairMoments(sqrt, pts);
    PairInertia(sqrt, pts, xBar, 0.0, d);
  }

  /**
   * The interior octagon is centred on the column: the calculator puts its centroid at the
   * column's centre and finds no product of inertia, so it reports the section as symmetric.
   */
  lemma GeneratedInteriorCentred(sqrt: real -> real, cx: real, cy: real, dist: real, d: real, p: Properties)
    requires IsSqrt(sqrt)
    requires 0.0 <= cx && 0.0 <= cy
    requires Section(sqrt, Generate(cx, cy, dist, Interior), d) == Some(p)
    ensures p.centroid == Point(0.0, 0.0) && p.jxy == 0.0
    ensures !IsUnsymmetric(p.jxy)
  {
    OctagonSegments(sqrt, cx, cy, dist, d);
    SectionFields(sqrt, Generate(cx, cy, dist, Interior), d);
    CentroidAtOrigin(p.segments, p.bo);
  }

  /** Segments without first moments have their centroid at the origin. */
  lemma CentroidAtOrigin(segs: seq<Segment>, total: real)
    requires total != 0.0
    requires MomentX(segs) == 0.0 && MomentY(segs) == 0.0
    ensures Centroid(segs, total) == Point(0.0, 0.0)
  {
  }

  /**
   * The edge chain, open on the left, has its centroid on the column's x axis, shifted to the
   * right of the column's centre, and no product of inertia about it.
   */
  lemma GeneratedEdgeShift(sqrt: real -> real, cx: real, cy: real, dist: real, d: real)
    requires IsSqrt(sqrt)
    requires 0.0 < cx && 0.0 < cy && 0.0 <= dist
    ensures Section(sqrt, Generate(cx, cy, dist, EdgeLeftFree), d).Some?
    ensures var p := Section(sqrt, Generate(cx, cy, dist, EdgeLeftFree), d).value;
      p.centroid.y == 0.0 && 0.0 < p.centroid.x && p.jxy == 0.0
  {
    var pts := Generate(cx, cy, dist, EdgeLeftFree);
    GeneratedSectionExists(sqrt, cx, cy, dist, EdgeLeftFree, d);
    var p := Section(sqrt, pts, d).value;
    EdgeChainSection(sqrt, cx, cy, dist, d, p);
  }

  lemma EdgeChainSection(sqrt: real -> real, cx: real, cy: real, dist: real, d: real, p: Properties)
    requires IsSqrt(sqrt)
    requires 0.0 < cx && 0.0 < cy && 0.0 <= dist
    requires Section(sqrt, Generate(cx, cy, dist, EdgeLeftFree), d) == Some(p)
    ensures p.centroid.y == 0.0 && 0.0 < p.centroid.x && p.jxy == 0.0
  {
    var pts := Generate(cx, cy, dist, EdgeLeftFree);
    var segs := Segments(sqrt, pts);
    assert p.segments == segs && p.centroid == Centroid(segs, p.bo)
           && p.jxy == ProductOfInertia(segs, p.centroid.x, p.centroid.y, d) by {
      SectionFields(sqrt, pts, d);
    }
    assert 0.0 < p.bo by {
      GeneratedPerimeter(sqrt, cx, cy, dist, EdgeLeftFree, d);
      ChamferPositive(sqrt, dist);
    }
    EdgeChainSegments(sqrt, cx, cy, dist, p.centroid.x, d);
    EdgeChainMomentPositive(sqrt, cx, cy, dist);
    CentroidOnXAxis(segs, p.bo);
  }

  /** Segments without a moment about the x axis and with a positive one about the y axis have their centroid on the positive x axis. */
  lemma CentroidOnXAxis(segs: seq<Segment>, total: real)
    requires 0.0 < total
    requires MomentX(segs) == 0.0 && 0.0 < MomentY(segs)
    ensures Centroid(segs, total).y == 0.0 && 0.0 < Centroid(segs, total).x
  {
  }

  /** The edge chain's moment about the y axis is positive. */
  /** The edge chain's first moment about the y axis is positive. */
  lemma EdgeChainMomentPositive(sqrt: real -> real, cx: real, cy: real, dist: real)
    requires IsSqrt(sqrt)
    requires 0.0 < cx && 0.0 < cy && 0.0 <= dist
    ensures 0.0 < MomentY(Segments(sqrt, Generate(cx, cy, dist, EdgeLeftFree)))
  {
    var c := Chamfer(sqrt, dist);
    EdgeChainSegments(sqrt, cx, cy, dist, 0.0, 0.0);
    ChamferPositive(sqrt, dist);
    EdgeMomentPositive(c, cx, cy, dist);
  }

  lemma EdgeMomentPositive(c: real, cx: real, cy: real, dist: real)
    requires 0.0 <= c && 0.0 < cx && 0.0 < cy && 0.0 <= dist
    ensures 0.0 < c * (cx + dist) + cy * (cx / 2.0 + dist)
  {
    MulPositive(cy, cx / 2.0 + dist);
    if 0.0 < c {
      MulPositive(c, cx + dist);
    }
  }

  /**
   * The octagon around a column 20 wide and 12 deep, at distance 25.3 with d = 5.62, has a
   * smaller moment of inertia about the x axis than about the y axis once its chamfers are
   * at least 25.3 long.
   */
  lemma WideOctagonInertia(segs: seq<Segment>, c: real)
    requires IsOctagonSides(segs, 20.0, 12.0, 25.3, c)
    requires 25.3 <= c
    ensures InertiaX(segs, 0.0, 0.0, 5.62) < InertiaY(segs, 0.0, 0.0, 5.62)
  {
    InertiaAsSums(segs, 0.0, 0.0, 5.62);
    SumsOfFiveAndEight(InertiaXTerms(segs, 0.0, 0.0, 5.62));
    SumsOfFiveAndEight(InertiaYTerms(segs, 0.0, 0.0, 5.62));
  }

  /** The segments the first loop records for that octagon: Jcx below Jcy about the column's centre. */
  lemma WideOctagonSegments(sqrt: real -> real)
    requires IsSqrt(sqrt)
    ensures var segs := Segments(sqrt, Generate(20.0, 12.0, 25.3, Interior));
      InertiaX(segs, 0.0, 0.0, 5.62) < InertiaY(segs, 0.0, 0.0, 5.62)
  {
    var pts := Generate(20.0, 12.0, 25.3, Interior);
    var c := Chamfer(sqrt, 25.3);
    OctagonPoints(20.0, 12.0, 25.3);
    OctagonSides(sqrt, pts, 20.0, 12.0, 25.3);
    ChamferAtLeastDistance(sqrt, 25.3);
    WideOctagonInertia(Pairs(sqrt, pts), c);
    PairInertia(sqrt, pts, 0.0, 0.0, 5.62);
  }

  /** The calculator's Jcx and Jcy for that octagon, whose centroid is the column's centre. */
  lemma WideOctagonSection(sqrt: real -> real, p: Properties)
    requires IsSqrt(sqrt)
    requires Section(sqrt, Generate(20.0, 12.0, 25.3, Interior), 5.62) == Some(p)
    requires p.centroid == Point(0.0, 0.0)
    ensures p.jcx < p.jcy
  {
    var segs := Segments(sqrt, Generate(20.0, 12.0, 25.3, Interior));
    assert p.jcx == InertiaX(segs, 0.0, 0.0, 5.62) && p.jcy == InertiaY(segs, 0.0, 0.0, 5.62) by {
      SectionFields(sqrt, Generate(20.0, 12.0, 25.3, Interior), 5.62);
    }
    WideOctagonSegments(sqrt);
  }

  /**
   * The display as written, on an interior column 20 wide and 12 deep with the critical
   * section at 25.3 and d = 5.62: the generated octagon has no product of inertia, so it is
   * reported as symmetric, but its Jcx is below its Jcy, so the value under the major label
   * is J_minor and the one under the minor label is J_major.
   */
  lemma MislabelledInterior(sqrt: real -> real)
    requires IsSqrt(sqrt)
    ensures Section(sqrt, Generate(20.0, 12.0, 25.3, Interior), 5.62).Some?
    ensures var p := Section(sqrt, Generate(20.0, 12.0, 25.3, Interior), 5.62).value;
      && p.jxy == 0.0 && p.jcx < p.jcy && !IsUnsymmetric(p.jxy)
      && SymmetricDisplayAsWritten(p).major == p.jMinor < p.jMajor == SymmetricDisplayAsWritten(p).minor
  {
    var pts := Generate(20.0, 12.0, 25.3, Interior);
    GeneratedSectionExists(sqrt, 20.0, 12.0, 25.3, Interior, 5.62);
    var p := Section(sqrt, pts, 5.62).value;
    GeneratedInteriorCentred(sqrt, 20.0, 12.0, 25.3, 5.62, p);
    WideOctagonSection(sqrt, p);
    SectionPrincipalFromMohr(sqrt, pts, 5.62);
    SymmetricDisplayMislabelled(sqrt, p);
  }
}
