/**
 * The principal moments and the principal angle (equation B.10 of ACI 421.1R-20 Appendix B).
 *
 * The calculator takes the principal moments from Mohr's circle: the mean of Jcx and Jcy
 * plus or minus the radius sqrt(((Jcx - Jcy) / 2)^2 + Jxy^2). This module proves what that
 * choice means. The moments keep the trace and the determinant of the inertia tensor, they
 * bracket Jcx and Jcy, and they are the least and the greatest second moment about any
 * centroidal axis. The axis the B.10 angle selects attains the major moment.
 */
module PrincipalAxes {
  import opened Geometry
  import opened SectionProperties
  import opened SectionTheory

  /** Mohr's radius is non-negative and squares to ((Jcx - Jcy) / 2)^2 + Jxy^2. */
  lemma MohrRadiusFacts(sqrt: real -> real, jcx: real, jcy: real, jxy: real)
    requires IsSqrt(sqrt)
    ensures 0.0 <= MohrRadius(sqrt, jcx, jcy, jxy)
    ensures MohrRadius(sqrt, jcx, jcy, jxy) * MohrRadius(sqrt, jcx, jcy, jxy)
            == ((jcx - jcy) / 2.0) * ((jcx - jcy) / 2.0) + jxy * jxy
  {
    var diff := (jcx - jcy) / 2.0;
    SquareNonNegative(diff);
    SquareNonNegative(jxy);
  }

  /** The principal moments bracket both centroidal moments. */
  lemma PrincipalBracket(sqrt: real -> real, jcx: real, jcy: real, jxy: real)
    requires IsSqrt(sqrt)
    ensures var r := MohrRadius(sqrt, jcx, jcy, jxy);
      && (jcx + jcy) / 2.0 - r <= jcx <= (jcx + jcy) / 2.0 + r
      && (jcx + jcy) / 2.0 - r <= jcy <= (jcx + jcy) / 2.0 + r
  {
    var r := MohrRadius(sqrt, jcx, jcy, jxy);
    var diff := (jcx - jcy) / 2.0;
    MohrRadiusFacts(sqrt, jcx, jcy, jxy);
    SquareNonNegative(jxy);
    SquareBound(diff, r);
  }

  /** The product of the principal moments is the determinant Jcx Jcy - Jxy^2. */
  lemma PrincipalDeterminant(sqrt: real -> real, jcx: real, jcy: real, jxy: real, jMajor: real, jMinor: real)
    requires IsSqrt(sqrt)
    requires jMajor == (jcx + jcy) / 2.0 + MohrRadius(sqrt, jcx, jcy, jxy)
    requires jMinor == (jcx + jcy) / 2.0 - MohrRadius(sqrt, jcx, jcy, jxy)
    ensures jMajor * jMinor == jcx * jcy - jxy * jxy
  {
    var r := MohrRadius(sqrt, jcx, jcy, jxy);
    var avg := (jcx + jcy) / 2.0;
    var diff := (jcx - jcy) / 2.0;
    MohrRadiusFacts(sqrt, jcx, jcy, jxy);
    assert jMajor * jMinor == (avg + r) * (avg - r);
    assert (avg + r) * (avg - r) == avg * avg - r * r;
    assert avg * avg - diff * diff == jcx * jcy;
  }

  /** Mohr's circle shrinks to a point exactly when Jcx == Jcy and Jxy == 0. */
  lemma MohrRadiusZero(sqrt: real -> real, jcx: real, jcy: real, jxy: real)
    requires IsSqrt(sqrt)
    ensures MohrRadius(sqrt, jcx, jcy, jxy) == 0.0 ==> jcx == jcy && jxy == 0.0
    ensures jcx == jcy && jxy == 0.0 ==> MohrRadius(sqrt, jcx, jcy, jxy) == 0.0
  {
    var diff := (jcx - jcy) / 2.0;
    MohrRadiusFacts(sqrt, jcx, jcy, jxy);
    SquareNonNegative(diff);
    SquareNonNegative(jxy);
    if MohrRadius(sqrt, jcx, jcy, jxy) == 0.0 {
      if diff != 0.0 {
        assert Abs(diff) * Abs(diff) == diff * diff;
        SquareStrictlyIncreasing(0.0, Abs(diff));
      } else if jxy != 0.0 {
        assert Abs(jxy) * Abs(jxy) == jxy * jxy;
        SquareStrictlyIncreasing(0.0, Abs(jxy));
      }
    }
    if jcx == jcy && jxy == 0.0 {
      SqrtUnique(sqrt, diff * diff + jxy * jxy, 0.0);
    }
  }

  /** Without a product of inertia the principal moments are Jcx and Jcy, the larger one major. */
  lemma NoProductOfInertia(sqrt: real -> real, jcx: real, jcy: real)
    requires IsSqrt(sqrt)
    ensures var r := MohrRadius(sqrt, jcx, jcy, 0.0);
      && (jcx + jcy) / 2.0 + r == Larger(jcx, jcy)
      && (jcx + jcy) / 2.0 - r == Smaller(jcx, jcy)
  {
    SqrtUnique(sqrt, ((jcx - jcy) / 2.0) * ((jcx - jcy) / 2.0) + 0.0 * 0.0, Abs((jcx - jcy) / 2.0));
  }

  /** The three branches that choose the principal angle and the tolerance tests behind each. */
  lemma AngleBranches(jcx: real, jcy: real, jxy: real)
    ensures PrincipalAngle(jcx, jcy, jxy) == Zero
            <==> Abs(jcx - jcy) < ANGLE_TOLERANCE && Abs(jxy) < ANGLE_TOLERANCE
    ensures PrincipalAngle(jcx, jcy, jxy) == QuarterPi
            <==> Abs(jcx - jcy) < ANGLE_TOLERANCE && ANGLE_TOLERANCE <= Abs(jxy)
    ensures PrincipalAngle(jcx, jcy, jxy).HalfAtan2? <==> ANGLE_TOLERANCE <= Abs(jcx - jcy)
    ensures PrincipalAngle(jcx, jcy, jxy).HalfAtan2? ==>
              PrincipalAngle(jcx, jcy, jxy) == HalfAtan2(-2.0 * jxy, jcx - jcy) && jcx - jcy != 0.0
  {
  }

  /**
   * The arguments of the arctangent lie on a circle whose radius is the spread of the
   * principal moments, so they are (cos 2 theta, sin 2 theta) scaled by Jmajor - Jminor.
   */
  lemma AtanArgumentsOnCircle(sqrt: real -> real, jcx: real, jcy: real, jxy: real)
    requires IsSqrt(sqrt)
    ensures var r := MohrRadius(sqrt, jcx, jcy, jxy);
      (jcx - jcy) * (jcx - jcy) + (-2.0 * jxy) * (-2.0 * jxy) == (2.0 * r) * (2.0 * r)
  {
    var r := MohrRadius(sqrt, jcx, jcy, jxy);
    var diff := (jcx - jcy) / 2.0;
    MohrRadiusFacts(sqrt, jcx, jcy, jxy);
    assert (2.0 * r) * (2.0 * r) == 4.0 * (r * r);
    assert (jcx - jcy) * (jcx - jcy) == 4.0 * (diff * diff);
  }

  /** Equation B.8 about the centroidal axis of direction (cs, sn), for one segment. */
  function RotatedContribution(s: Segment, xBar: real, yBar: real, d: real, cs: real, sn: real): real
  {
    d * (s.l / 3.0) * SquareTerm(-sn * (s.p1.x - xBar) + cs * (s.p1.y - yBar),
                                 -sn * (s.p2.x - xBar) + cs * (s.p2.y - yBar))
  }

  /**
   * The second moment about the centroidal axis of direction (cs, sn): equation B.8 in the
   * frame rotated so that this axis is the x axis.
   */
  function RotatedInertia(segs: seq<Segment>, xBar: real, yBar: real, d: real, cs: real, sn: real): real
  {
    if segs == [] then 0.0
    else RotatedInertia(segs[..|segs| - 1], xBar, yBar, d, cs, sn) + RotatedContribution(segs[|segs| - 1], xBar, yBar, d, cs, sn)
  }

  /** The integrand of B.8 in rotated coordinates, expanded in the unrotated ones. */
  lemma RotatedSquareTerm(x1: real, y1: real, x2: real, y2: real, cs: real, sn: real)
    ensures SquareTerm(-sn * x1 + cs * y1, -sn * x2 + cs * y2)
            == cs * cs * SquareTerm(y1, y2) + sn * sn * SquareTerm(x1, x2) - cs * sn * ProductTerm(x1, y1, x2, y2)
  {
    var u1, u2 := -sn * x1 + cs * y1, -sn * x2 + cs * y2;
    var c2, s2, cssn := cs * cs, sn * sn, cs * sn;
    assert u1 * u1 == s2 * (x1 * x1) - 2.0 * cssn * (x1 * y1) + c2 * (y1 * y1);
    assert u1 * u2 == s2 * (x1 * x2) - cssn * (x1 * y2 + x2 * y1) + c2 * (y1 * y2);
    assert u2 * u2 == s2 * (x2 * x2) - 2.0 * cssn * (x2 * y2) + c2 * (y2 * y2);
  }

  /**
   * The second moment about the axis of direction (cs, sn) of a section whose centroidal
   * moments are jx, jy and jxy: cs^2 Jx + sn^2 Jy - 2 cs sn Jxy.
   */
  function AxisMoment(cs: real, sn: real, jx: real, jy: real, jxy: real): real
  {
    cs * cs * jx + sn * sn * jy - 2.0 * cs * sn * jxy
  }

  /** AxisMoment is additive in the moments. */
  lemma AxisMomentAdditive(cs: real, sn: real, x1: real, y1: real, xy1: real, x2: real, y2: real, xy2: real)
    ensures AxisMoment(cs, sn, x1 + x2, y1 + y2, xy1 + xy2)
            == AxisMoment(cs, sn, x1, y1, xy1) + AxisMoment(cs, sn, x2, y2, xy2)
  {
  }

  /** One segment's rotated moment obeys the transformation law. */
  lemma RotatedContributionLaw(s: Segment, xBar: real, yBar: real, d: real, cs: real, sn: real)
    ensures RotatedContribution(s, xBar, yBar, d, cs, sn)
            == AxisMoment(cs, sn, ContributionX(s, xBar, yBar, d), ContributionY(s, xBar, yBar, d), ContributionXY(s, xBar, yBar, d))
  {
    var x1, y1, x2, y2 := s.p1.x - xBar, s.p1.y - yBar, s.p2.x - xBar, s.p2.y - yBar;
    RotatedSquareTerm(x1, y1, x2, y2, cs, sn);
    var k := d * (s.l / 3.0);
    var tx, ty, txy := SquareTerm(x1, x2), SquareTerm(y1, y2), ProductTerm(x1, y1, x2, y2);
    assert d * (s.l / 6.0) == k / 2.0;
    assert k * (cs * cs * ty + sn * sn * tx - cs * sn * txy)
           == cs * cs * (k * ty) + sn * sn * (k * tx) - 2.0 * cs * sn * ((k / 2.0) * txy);
  }

  /**
   * The transformation law of second moments: the moment about the centroidal axis of
   * direction (cs, sn) is cs^2 Jcx + sn^2 Jcy - 2 cs sn Jxy.
   */
  lemma {:induction false} RotationLaw(segs: seq<Segment>, xBar: real, yBar: real, d: real, cs: real, sn: real)
    ensures RotatedInertia(segs, xBar, yBar, d, cs, sn)
            == AxisMoment(cs, sn, InertiaX(segs, xBar, yBar, d), InertiaY(segs, xBar, yBar, d), ProductOfInertia(segs, xBar, yBar, d))
  {
    if segs != [] {
      var prefix := segs[..|segs| - 1];
      var s := segs[|segs| - 1];
      RotationLaw(prefix, xBar, yBar, d, cs, sn);
      RotatedContributionLaw(s, xBar, yBar, d, cs, sn);
      AxisMomentAdditive(cs, sn,
        InertiaX(prefix, xBar, yBar, d), InertiaY(prefix, xBar, yBar, d), ProductOfInertia(prefix, xBar, yBar, d),
        ContributionX(s, xBar, yBar, d), ContributionY(s, xBar, yBar, d), ContributionXY(s, xBar, yBar, d));
    }
  }

  /** About a unit direction, the axis moment minus the mean is diff (cs^2 - sn^2) - Jxy (2 cs sn). */
  lemma AxisMomentCentered(cs: real, sn: real, jcx: real, jcy: real, jxy: real)
    requires cs * cs + sn * sn == 1.0
    ensures AxisMoment(cs, sn, jcx, jcy, jxy) - (jcx + jcy) / 2.0
            == ((jcx - jcy) / 2.0) * (cs * cs - sn * sn) - jxy * (2.0 * cs * sn)
  {
    var c, s := cs * cs, sn * sn;
    assert (jcx + jcy) / 2.0 == ((jcx + jcy) / 2.0) * (c + s);
  }

  /** Lagrange's identity for two pairs of reals. */
  lemma Lagrange(a: real, b: real, c: real, s: real)
    ensures (a * c - b * s) * (a * c - b * s) + (a * s + b * c) * (a * s + b * c) == (a * a + b * b) * (c * c + s * s)
  {
  }

  /** (cos 2t, sin 2t) is a unit vector when (cos t, sin t) is. */
  lemma DoubleAngleUnit(cs: real, sn: real)
    requires cs * cs + sn * sn == 1.0
    ensures (cs * cs - sn * sn) * (cs * cs - sn * sn) + (2.0 * cs * sn) * (2.0 * cs * sn) == 1.0
  {
    var c, s := cs * cs, sn * sn;
    assert (c - s) * (c - s) + 4.0 * (c * s) == (c + s) * (c + s);
    assert (2.0 * cs * sn) * (2.0 * cs * sn) == 4.0 * (c * s);
  }

  /** The principal moments are the least and the greatest moment about any centroidal axis. */
  lemma AxisMomentBetweenPrincipal(sqrt: real -> real, jcx: real, jcy: real, jxy: real, cs: real, sn: real)
    requires IsSqrt(sqrt)
    requires cs * cs + sn * sn == 1.0
    ensures (jcx + jcy) / 2.0 - MohrRadius(sqrt, jcx, jcy, jxy) <= AxisMoment(cs, sn, jcx, jcy, jxy)
    ensures AxisMoment(cs, sn, jcx, jcy, jxy) <= (jcx + jcy) / 2.0 + MohrRadius(sqrt, jcx, jcy, jxy)
  {
    var diff := (jcx - jcy) / 2.0;
    var c2, s2 := cs * cs - sn * sn, 2.0 * cs * sn;
    var e := diff * c2 - jxy * s2;
    var f := diff * s2 + jxy * c2;
    AxisMomentCentered(cs, sn, jcx, jcy, jxy);
    MohrRadiusFacts(sqrt, jcx, jcy, jxy);
    Lagrange(diff, jxy, c2, s2);
    DoubleAngleUnit(cs, sn);
    SquareNonNegative(f);
    assert e * e <= (diff * diff + jxy * jxy) * 1.0;
    SquareBound(e, MohrRadius(sqrt, jcx, jcy, jxy));
  }

  /**
   * The axis whose double angle points along the arguments (Jcx - Jcy, -2 Jxy) of the B.10
   * arctangent attains the major moment.
   */
  lemma MajorAxisAttained(sqrt: real -> real, jcx: real, jcy: real, jxy: real, cs: real, sn: real)
    requires IsSqrt(sqrt)
    requires cs * cs + sn * sn == 1.0
    requires (cs * cs - sn * sn) * (2.0 * MohrRadius(sqrt, jcx, jcy, jxy)) == jcx - jcy
    requires (2.0 * cs * sn) * (2.0 * MohrRadius(sqrt, jcx, jcy, jxy)) == -2.0 * jxy
    ensures AxisMoment(cs, sn, jcx, jcy, jxy) == (jcx + jcy) / 2.0 + MohrRadius(sqrt, jcx, jcy, jxy)
  {
    var r := MohrRadius(sqrt, jcx, jcy, jxy);
    var diff := (jcx - jcy) / 2.0;
    var c2, s2 := cs * cs - sn * sn, 2.0 * cs * sn;
    var e := diff * c2 - jxy * s2;
    AxisMomentCentered(cs, sn, jcx, jcy, jxy);
    MohrRadiusFacts(sqrt, jcx, jcy, jxy);
    if r == 0.0 {
      assert jcx - jcy == 0.0 && jxy == 0.0;
    } else {
      assert c2 * r == diff && s2 * r == -jxy;
      assert e * r == diff * (c2 * r) - jxy * (s2 * r);
      assert e * r == r * r;
      assert (e - r) * r == 0.0;
    }
  }

  /** The moments about two perpendicular axes add up to Jcx + Jcy. */
  lemma PerpendicularAxes(cs: real, sn: real, jcx: real, jcy: real, jxy: real)
    requires cs * cs + sn * sn == 1.0
    ensures AxisMoment(cs, sn, jcx, jcy, jxy) + AxisMoment(-sn, cs, jcx, jcy, jxy) == jcx + jcy
  {
    var c, s := cs * cs, sn * sn;
    assert (-sn) * (-sn) == s;
    assert 2.0 * (-sn) * cs == -(2.0 * cs * sn);
    assert c * jcx + s * jcy + s * jcx + c * jcy == (c + s) * (jcx + jcy);
  }

  /** The axis perpendicular to the major one attains the minor moment. */
  lemma MinorAxisAttained(sqrt: real -> real, jcx: real, jcy: real, jxy: real, cs: real, sn: real)
    requires IsSqrt(sqrt)
    requires cs * cs + sn * sn == 1.0
    requires (cs * cs - sn * sn) * (2.0 * MohrRadius(sqrt, jcx, jcy, jxy)) == jcx - jcy
    requires (2.0 * cs * sn) * (2.0 * MohrRadius(sqrt, jcx, jcy, jxy)) == -2.0 * jxy
    ensures AxisMoment(-sn, cs, jcx, jcy, jxy) == (jcx + jcy) / 2.0 - MohrRadius(sqrt, jcx, jcy, jxy)
  {
    MajorAxisAttained(sqrt, jcx, jcy, jxy, cs, sn);
    PerpendicularAxes(cs, sn, jcx, jcy, jxy);
  }

  /**
   * The quarter-pi branch: when Jcx == Jcy the axis at 45 degrees carries Jcx - Jxy, which is
   * the major moment when Jxy <= 0 and the minor moment when Jxy >= 0.
   */
  lemma QuarterPiAxis(sqrt: real -> real, jc: real, jxy: real, h: real)
    requires IsSqrt(sqrt)
    requires h * h == 0.5
    ensures AxisMoment(h, h, jc, jc, jxy) == jc - jxy
    ensures jxy <= 0.0 ==> AxisMoment(h, h, jc, jc, jxy) == (jc + jc) / 2.0 + MohrRadius(sqrt, jc, jc, jxy)
    ensures 0.0 <= jxy ==> AxisMoment(h, h, jc, jc, jxy) == (jc + jc) / 2.0 - MohrRadius(sqrt, jc, jc, jxy)
  {
    var m := AxisMoment(h, h, jc, jc, jxy);
    assert m == (h * h) * jc + (h * h) * jc - 2.0 * (h * h) * jxy;
    assert m == jc - jxy;
    assert Abs(jxy) * Abs(jxy) == ((jc - jc) / 2.0) * ((jc - jc) / 2.0) + jxy * jxy;
    SqrtUnique(sqrt, ((jc - jc) / 2.0) * ((jc - jc) / 2.0) + jxy * jxy, Abs(jxy));
    var r := MohrRadius(sqrt, jc, jc, jxy);
    assert r == Abs(jxy);
    assert (jc + jc) / 2.0 == jc;
    if 0.0 <= jxy {
      assert r == jxy;
    } else {
      assert r == -jxy;
    }
  }

  /** The radius of Mohr's circle lies between the half-difference of the moments and that plus the product of inertia. */
  lemma MohrRadiusRange(sqrt: real -> real, jcx: real, jcy: real, jxy: real)
    requires IsSqrt(sqrt)
    ensures Abs((jcx - jcy) / 2.0) <= MohrRadius(sqrt, jcx, jcy, jxy) <= Abs((jcx - jcy) / 2.0) + Abs(jxy)
    ensures Abs(jxy) <= MohrRadius(sqrt, jcx, jcy, jxy)
  {
    var r := MohrRadius(sqrt, jcx, jcy, jxy);
    var a, b := Abs((jcx - jcy) / 2.0), Abs(jxy);
    MohrRadiusFacts(sqrt, jcx, jcy, jxy);
    assert a * a == ((jcx - jcy) / 2.0) * ((jcx - jcy) / 2.0);
    assert b * b == jxy * jxy;
    SquareNonNegative(a);
    SquareNonNegative(b);
    MulNonNegative(a, b);
    assert (a + b) * (a + b) == a * a + 2.0 * (a * b) + b * b;
    SquareBound(r, a + b);
    SquareBound(a, r);
    SquareBound(b, r);
  }

  /**
   * The zero branch is taken only near an isotropic section: the spread Jmajor - Jminor of
   * the principal moments is then below sqrt(5) times the tolerance.
   */
  lemma ZeroAngleNearlyIsotropic(sqrt: real -> real, jcx: real, jcy: real, jxy: real)
    requires IsSqrt(sqrt)
    requires PrincipalAngle(jcx, jcy, jxy) == Zero
    ensures (2.0 * MohrRadius(sqrt, jcx, jcy, jxy)) * (2.0 * MohrRadius(sqrt, jcx, jcy, jxy))
            < 5.0 * ANGLE_TOLERANCE * ANGLE_TOLERANCE
  {
    var t := ANGLE_TOLERANCE;
    var a, b := Abs(jcx - jcy), Abs(jxy);
    assert a < t && b < t;
    assert a * a == (jcx - jcy) * (jcx - jcy);
    assert b * b == jxy * jxy;
    SquareStrictlyIncreasing(a, t);
    SquareStrictlyIncreasing(b, t);
    AtanArgumentsOnCircle(sqrt, jcx, jcy, jxy);
    assert (-2.0 * jxy) * (-2.0 * jxy) == 4.0 * (jxy * jxy);
  }

  /** The principal moments and the angle of a result as the calculator derives them from Jcx, Jcy and Jxy. */
  ghost predicate PrincipalFromMohr(sqrt: real -> real, p: Properties)
  {
    && p.jMajor == (p.jcx + p.jcy) / 2.0 + MohrRadius(sqrt, p.jcx, p.jcy, p.jxy)
    && p.jMinor == (p.jcx + p.jcy) / 2.0 - MohrRadius(sqrt, p.jcx, p.jcy, p.jxy)
    && p.theta == PrincipalAngle(p.jcx, p.jcy, p.jxy)
  }

  /** Every result of the calculator takes its principal moments and angle from Mohr's circle. */
  lemma SectionPrincipalFromMohr(sqrt: real -> real, pts: seq<Point>, d: real)
    requires Section(sqrt, pts, d).Some?
    ensures PrincipalFromMohr(sqrt, Section(sqrt, pts, d).value)
  {
    SectionFields(sqrt, pts, d);
  }

  /** Trace, determinant and bracketing for principal moments taken from Mohr's circle. */
  lemma PrincipalMoments(sqrt: real -> real, p: Properties)
    requires IsSqrt(sqrt) && PrincipalFromMohr(sqrt, p)
    ensures p.jMajor + p.jMinor == p.jcx + p.jcy
    ensures p.jMinor <= p.jcx <= p.jMajor && p.jMinor <= p.jcy <= p.jMajor
    ensures p.jMajor * p.jMinor == p.jcx * p.jcy - p.jxy * p.jxy
  {
    PrincipalBracket(sqrt, p.jcx, p.jcy, p.jxy);
    PrincipalDeterminant(sqrt, p.jcx, p.jcy, p.jxy, p.jMajor, p.jMinor);
  }

  /**
   * The calculator's principal moments keep the trace Jcx + Jcy and bracket Jcx and Jcy
   * (their product, the determinant, is PrincipalMoments on the same result).
   */
  lemma SectionPrincipalMoments(sqrt: real -> real, pts: seq<Point>, d: real)
    requires IsSqrt(sqrt)
    requires Section(sqrt, pts, d).Some?
    ensures Section(sqrt, pts, d).value.jMajor + Section(sqrt, pts, d).value.jMinor
            == Section(sqrt, pts, d).value.jcx + Section(sqrt, pts, d).value.jcy
    ensures Section(sqrt, pts, d).value.jMinor <= Section(sqrt, pts, d).value.jcx <= Section(sqrt, pts, d).value.jMajor
    ensures Section(sqrt, pts, d).value.jMinor <= Section(sqrt, pts, d).value.jcy <= Section(sqrt, pts, d).value.jMajor
  {
    SectionPrincipalFromMohr(sqrt, pts, d);
    PrincipalMoments(sqrt, Section(sqrt, pts, d).value);
  }

  /**
   * Without a product of inertia the calculator's principal moments are Jcx and Jcy, the
   * larger one major.
   */
  lemma SectionWithoutProductOfInertia(sqrt: real -> real, pts: seq<Point>, d: real)
    requires IsSqrt(sqrt)
    requires Section(sqrt, pts, d).Some? && Section(sqrt, pts, d).value.jxy == 0.0
    ensures var p := Section(sqrt, pts, d).value;
      && p.jMajor == Larger(p.jcx, p.jcy)
      && p.jMinor == Smaller(p.jcx, p.jcy)
  {
    SectionPrincipalFromMohr(sqrt, pts, d);
    NoProductOfInertia(sqrt, Section(sqrt, pts, d).value.jcx, Section(sqrt, pts, d).value.jcy);
  }

  /** The moments of a result about its centroidal axes, as the calculator's second loop sums them. */
  ghost predicate MomentsFromSegments(p: Properties, d: real)
  {
    && p.jcx == InertiaX(p.segments, p.centroid.x, p.centroid.y, d)
    && p.jcy == InertiaY(p.segments, p.centroid.x, p.centroid.y, d)
    && p.jxy == ProductOfInertia(p.segments, p.centroid.x, p.centroid.y, d)
  }

  lemma SectionMomentsFromSegments(sqrt: real -> real, pts: seq<Point>, d: real)
    requires Section(sqrt, pts, d).Some?
    ensures MomentsFromSegments(Section(sqrt, pts, d).value, d)
  {
    SectionFields(sqrt, pts, d);
  }

  /** For a result whose moments are the sums of its segments, every centroidal axis moment lies between the principal ones. */
  lemma AxisMomentsOf(sqrt: real -> real, p: Properties, d: real, cs: real, sn: real)
    requires IsSqrt(sqrt) && PrincipalFromMohr(sqrt, p) && MomentsFromSegments(p, d)
    requires cs * cs + sn * sn == 1.0
    ensures p.jMinor <= RotatedInertia(p.segments, p.centroid.x, p.centroid.y, d, cs, sn) <= p.jMajor
  {
    RotationLaw(p.segments, p.centroid.x, p.centroid.y, d, cs, sn);
    AxisMomentBetweenPrincipal(sqrt, p.jcx, p.jcy, p.jxy, cs, sn);
  }

  /**
   * The principal moments bound the second moment of the section about every centroidal
   * axis, the axis of unit direction (cs, sn) taken in its own rotated frame.
   */
  lemma SectionAxisMoments(sqrt: real -> real, pts: seq<Point>, d: real, cs: real, sn: real)
    requires IsSqrt(sqrt)
    requires Section(sqrt, pts, d).Some?
    requires cs * cs + sn * sn == 1.0
    ensures var p := Section(sqrt, pts, d).value;
      p.jMinor <= RotatedInertia(p.segments, p.centroid.x, p.centroid.y, d, cs, sn) <= p.jMajor
  {
    SectionPrincipalFromMohr(sqrt, pts, d);
    SectionMomentsFromSegments(sqrt, pts, d);
    AxisMomentsOf(sqrt, Section(sqrt, pts, d).value, d, cs, sn);
  }

  /** The axis at half the B.10 arctangent attains the major moment and its perpendicular the minor one. */
  lemma MajorAxisOf(sqrt: real -> real, p: Properties, d: real, cs: real, sn: real)
    requires IsSqrt(sqrt) && PrincipalFromMohr(sqrt, p) && MomentsFromSegments(p, d)
    requires p.theta.HalfAtan2?
    requires cs * cs + sn * sn == 1.0
    requires (cs * cs - sn * sn) * (p.jMajor - p.jMinor) == p.theta.x
    requires (2.0 * cs * sn) * (p.jMajor - p.jMinor) == p.theta.y
    ensures RotatedInertia(p.segments, p.centroid.x, p.centroid.y, d, cs, sn) == p.jMajor
    ensures RotatedInertia(p.segments, p.centroid.x, p.centroid.y, d, -sn, cs) == p.jMinor
  {
    PrincipalAxesAttained(sqrt, p.jcx, p.jcy, p.jxy, p.jMajor, p.jMinor, cs, sn);
    RotationLaw(p.segments, p.centroid.x, p.centroid.y, d, cs, sn);
    RotationLaw(p.segments, p.centroid.x, p.centroid.y, d, -sn, cs);
  }

  /**
   * The B.10 branch: for the axis at half the arctangent of theta's arguments, that is the
   * unit direction (cs, sn) whose double angle (cs^2 - sn^2, 2 cs sn) points along
   * (theta.x, theta.y) at distance Jmajor - Jminor, the section's moment is the major one and
   * the moment about the perpendicular axis is the minor one.
   */
  lemma SectionMajorAxis(sqrt: real -> real, pts: seq<Point>, d: real, p: Properties, cs: real, sn: real)
    requires IsSqrt(sqrt)
    requires Section(sqrt, pts, d) == Some(p) && p.theta.HalfAtan2?
    requires cs * cs + sn * sn == 1.0
    requires (cs * cs - sn * sn) * (p.jMajor - p.jMinor) == p.theta.x
    requires (2.0 * cs * sn) * (p.jMajor - p.jMinor) == p.theta.y
    ensures RotatedInertia(p.segments, p.centroid.x, p.centroid.y, d, cs, sn) == p.jMajor
    ensures RotatedInertia(p.segments, p.centroid.x, p.centroid.y, d, -sn, cs) == p.jMinor
  {
    SectionPrincipalFromMohr(sqrt, pts, d);
    SectionMomentsFromSegments(sqrt, pts, d);
    MajorAxisOf(sqrt, p, d, cs, sn);
  }

  /** MajorAxisAttained and MinorAxisAttained, with the spread written as Jmajor - Jminor. */
  lemma PrincipalAxesAttained(sqrt: real -> real, jcx: real, jcy: real, jxy: real, jMajor: real, jMinor: real, cs: real, sn: real)
    requires IsSqrt(sqrt)
    requires jMajor == (jcx + jcy) / 2.0 + MohrRadius(sqrt, jcx, jcy, jxy)
    requires jMinor == (jcx + jcy) / 2.0 - MohrRadius(sqrt, jcx, jcy, jxy)
    requires cs * cs + sn * sn == 1.0
    requires (cs * cs - sn * sn) * (jMajor - jMinor) == jcx - jcy
    requires (2.0 * cs * sn) * (jMajor - jMinor) == -2.0 * jxy
    ensures AxisMoment(cs, sn, jcx, jcy, jxy) == jMajor
    ensures AxisMoment(-sn, cs, jcx, jcy, jxy) == jMinor
  {
    AxisSpread(sqrt, jcx, jcy, jxy, jMajor - jMinor, cs, sn);
    MajorAxisAttained(sqrt, jcx, jcy, jxy, cs, sn);
    MinorAxisAttained(sqrt, jcx, jcy, jxy, cs, sn);
  }

  /** Rewrites the hypotheses of MajorAxisAttained from the spread of the principal moments. */
  lemma AxisSpread(sqrt: real -> real, jcx: real, jcy: real, jxy: real, spread: real, cs: real, sn: real)
    requires spread == 2.0 * MohrRadius(sqrt, jcx, jcy, jxy)
    requires (cs * cs - sn * sn) * spread == jcx - jcy && (2.0 * cs * sn) * spread == -2.0 * jxy
    ensures (cs * cs - sn * sn) * (2.0 * MohrRadius(sqrt, jcx, jcy, jxy)) == jcx - jcy
    ensures (2.0 * cs * sn) * (2.0 * MohrRadius(sqrt, jcx, jcy, jxy)) == -2.0 * jxy
  {
  }
}
