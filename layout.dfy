/**
 * The two small rules of the calculator around the section properties: the distance of the
 * critical section from the column face when it lies beyond a layout of shear studs, and the
 * test on the product of inertia that decides whether the results are reported on the
 * principal axes or on the x and y axes.
 */
module Layout {
  import opened Geometry
  import opened SectionProperties
  import opened SectionTheory
  import opened PrincipalAxes

  /** The distance from the column face of the n-th line of studs: the first at so, each next s further out. */
  function StudLine(so: real, s: real, n: nat): real
    requires 1 <= n
  {
    if n == 1 then so else StudLine(so, s, n - 1) + s
  }

  /** The n-th line of studs lies n - 1 spacings beyond the first. */
  lemma {:induction false} StudLineOffset(so: real, s: real, n: nat)
    requires 1 <= n
    ensures StudLine(so, s, n) == so + ((n - 1) as real) * s
  {
    if n > 1 {
      StudLineOffset(so, s, n - 1);
      assert ((n - 1) as real) * s == ((n - 2) as real) * s + s;
    }
  }

  /**
   * The distance from the column face of the critical section outside a stud layout whose
   * first line lies so from the face, whose n lines are s apart, in a slab of effective depth
   * d: d/2 beyond the outermost line of studs.
   */
  function StudCriticalDistance(so: real, s: real, n: int, d: real): (r: real)
    ensures 1 <= n ==> r == StudLine(so, s, n) + d / 2.0
  {
    var dist := so + ((n - 1) as real) * s + d / 2.0;
    if 1 <= n then StudLineOffset(so, s, n); dist else dist
  }

  /** For a layout of non-negative spacings the section lies at least d/2 beyond the first line, and one more line moves it out by s. */
  lemma StudDistanceGrows(so: real, s: real, n: nat, d: real)
    requires 1 <= n && 0.0 <= s
    ensures so + d / 2.0 <= StudCriticalDistance(so, s, n, d)
    ensures StudCriticalDistance(so, s, n + 1, d) == StudCriticalDistance(so, s, n, d) + s
  {
    MulNonNegative((n - 1) as real, s);
    assert (n as real) * s == ((n - 1) as real) * s + s;
  }

  /** The magnitude of the product of inertia above which the results are given on the principal axes. */
  const UNSYMMETRIC_TOLERANCE: real := 1.0

  /** The section is reported as unsymmetric when its product of inertia lies outside the band of the tolerance about zero. */
  function IsUnsymmetric(jxy: real): (u: bool)
    ensures u <==> jxy < -UNSYMMETRIC_TOLERANCE || UNSYMMETRIC_TOLERANCE < jxy
  {
    Abs(jxy) > UNSYMMETRIC_TOLERANCE
  }

  /**
   * When the section is reported as unsymmetric, its principal axes are not the x and y
   * axes (the angle is not the zero branch) and its principal moments differ by more than
   * twice the tolerance.
   */
  lemma UnsymmetricPrincipalSpread(sqrt: real -> real, p: Properties)
    requires IsSqrt(sqrt) && PrincipalFromMohr(sqrt, p)
    requires IsUnsymmetric(p.jxy)
    ensures p.theta != Zero
    ensures 2.0 * UNSYMMETRIC_TOLERANCE < p.jMajor - p.jMinor
  {
    MohrRadiusRange(sqrt, p.jcx, p.jcy, p.jxy);
  }

  /** The two moments the results show for a section reported as symmetric, under the labels major and minor. */
  datatype Display = Display(major: real, minor: real)

  /** The display as written: Jcx under the major label and Jcy under the minor one, whatever their order. */
  function SymmetricDisplayAsWritten(p: Properties): Display
  {
    Display(p.jcx, p.jcy)
  }

  /**
   * What the display as written shows when the section is reported as symmetric: when
   * Jcx >= Jcy the two labelled values are within the tolerance of J_major and J_minor, but
   * when Jcx < Jcy the value under the major label is within the tolerance of J_minor and
   * the one under the minor label within the tolerance of J_major.
   */
  lemma SymmetricDisplayAsWrittenBounds(sqrt: real -> real, p: Properties)
    requires IsSqrt(sqrt) && PrincipalFromMohr(sqrt, p)
    requires !IsUnsymmetric(p.jxy)
    ensures var shown := SymmetricDisplayAsWritten(p);
      p.jcy <= p.jcx ==>
        && p.jMajor - UNSYMMETRIC_TOLERANCE <= shown.major <= p.jMajor
        && p.jMinor <= shown.minor <= p.jMinor + UNSYMMETRIC_TOLERANCE
    ensures var shown := SymmetricDisplayAsWritten(p);
      p.jcx < p.jcy ==>
        && p.jMinor <= shown.major <= p.jMinor + UNSYMMETRIC_TOLERANCE
        && p.jMajor - UNSYMMETRIC_TOLERANCE <= shown.minor <= p.jMajor
  {
    MohrRadiusRange(sqrt, p.jcx, p.jcy, p.jxy);
  }

  /**
   * The display as written mislabels every section without a product of inertia whose Jcy
   * exceeds Jcx: it is reported as symmetric, and the value under the major label is J_minor,
   * below J_major, which stands under the minor label.
   */
  lemma SymmetricDisplayMislabelled(sqrt: real -> real, p: Properties)
    requires IsSqrt(sqrt) && PrincipalFromMohr(sqrt, p)
    requires p.jxy == 0.0 && p.jcx < p.jcy
    ensures !IsUnsymmetric(p.jxy)
    ensures SymmetricDisplayAsWritten(p).major == p.jMinor < p.jMajor == SymmetricDisplayAsWritten(p).minor
  {
    NoProductOfInertia(sqrt, p.jcx, p.jcy);
  }

  /** The display corrected: the larger of Jcx and Jcy under the major label and the smaller under the minor one. */
  function SymmetricDisplay(p: Properties): Display
  {
    Display(Larger(p.jcx, p.jcy), Smaller(p.jcx, p.jcy))
  }

  /**
   * When the section is reported as symmetric, the corrected display shows under each label
   * a value within the tolerance of the principal moment of that name.
   */
  lemma SymmetricDisplayClose(sqrt: real -> real, p: Properties)
    requires IsSqrt(sqrt) && PrincipalFromMohr(sqrt, p)
    requires !IsUnsymmetric(p.jxy)
    ensures p.jMajor - UNSYMMETRIC_TOLERANCE <= SymmetricDisplay(p).major <= p.jMajor
    ensures p.jMinor <= SymmetricDisplay(p).minor <= p.jMinor + UNSYMMETRIC_TOLERANCE
  {
    MohrRadiusRange(sqrt, p.jcx, p.jcy, p.jxy);
  }

  /**
   * Both rules for the properties the calculator returns for a polyline: principal moments
   * well apart when the section is reported as unsymmetric, and a corrected symmetric display
   * within the tolerance of them otherwise.
   */
  lemma SectionReport(sqrt: real -> real, pts: seq<Point>, d: real)
    requires IsSqrt(sqrt)
    requires Section(sqrt, pts, d).Some?
    ensures var p := Section(sqrt, pts, d).value;
      if IsUnsymmetric(p.jxy) then p.theta != Zero && 2.0 * UNSYMMETRIC_TOLERANCE < p.jMajor - p.jMinor
      else p.jMajor - UNSYMMETRIC_TOLERANCE <= SymmetricDisplay(p).major <= p.jMajor
           && p.jMinor <= SymmetricDisplay(p).minor <= p.jMinor + UNSYMMETRIC_TOLERANCE
  {
    var p := Section(sqrt, pts, d).value;
    SectionPrincipalFromMohr(sqrt, pts, d);
    if IsUnsymmetric(p.jxy) {
      UnsymmetricPrincipalSpread(sqrt, p);
    } else {
      SymmetricDisplayClose(sqrt, p);
    }
  }
}
