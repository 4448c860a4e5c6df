# Punching-shear critical section: section properties

A Dafny model of the calculation core of a punching-shear calculator for flat slabs
(`app.py`). The calculator follows the polygonal "critical section" method of Appendix B
of ACI 421.1R-20. It has two parts:

- **The shape generator** (`generate_critical_section`). It takes the column size Cx × Cy,
  the distance of the critical section from the column face and the column type. It returns
  the points of the critical-section polyline in column-centred coordinates:
  - a closed octagon for an interior column;
  - an open six-point chain for an edge column whose left face is free;
  - an open four-point chain for a corner column whose top and left faces are free;
  - no points for any other type.
- **The property calculator** (`calculate_section_properties`). It reduces that polyline,
  treated as a line of straight segments of depth d, to section properties:
  - the perimeter bo and the area Ac = bo·d;
  - the length-weighted centroid;
  - the second moments Jcx, Jcy and the product Jxy about centroidal axes (equations B.8,
    B.9 and B.11 of the appendix);
  - the principal moments J_major and J_minor, from Mohr's circle;
  - the principal angle, a three-way branch with equation B.10 in the general case.

Two small rules next to the core are modelled too:

- the distance of the critical section outside a stud layout, `s0 + (n-1)·s + d/2`;
- the test `|Jxy| > 1.0` that decides whether the results are reported on the principal
  axes, and which two moments the results then show under the labels major and minor.

Modules:

- `Geometry` (`geometry.dfy`): points, distances and the square-root laws.
- `SectionProperties` (`section_properties.dfy`): the calculator. Its two loops are methods
  whose accumulators are tied by loop invariants to prefix-recursive specification
  functions. `CalculateSectionProperties` returns exactly `Section(sqrt, points, d)`, the
  functional description of the result.
- `SectionTheory` (`section_theory.dfy`): what the result means. This covers segments,
  perimeter, when no result comes back, repeated points, the centroid bounds and the sign of
  the moments.
- `PrincipalAxes` (`principal_axes.dfy`): Mohr's circle and the principal angle. It also
  proves that rotating the axes moves the moment of inertia between J_minor and J_major,
  and that the axis selected by B.10 attains J_major.
- `CriticalSection` (`critical_section.dfy`): the shape generator, its shapes and their
  perimeters.
- `Layout` (`layout.dfy`): the stud-layout distance, the unsymmetric-section test and the
  labelling of the moments shown for a symmetric section (see "## Findings").
- `GeneratedSections` (`generated_sections.dfy`): what the calculator returns for the
  generated shapes. The interior octagon is centred on the column with Jxy = 0. The edge
  chain has its centroid on the x axis, shifted away from its free left face, with Jxy = 0. It also
  holds the concrete interior column behind the finding.

How the platform's floats and library functions are modelled:

- Numbers are exact reals.
- The platform square root is a parameter `sqrt: real -> real` that must obey
  `IsSqrt(sqrt)`: `sqrt(v) >= 0` and `sqrt(v)·sqrt(v) == v` for `v >= 0`. `SqrtUnique`
  shows these laws fix the value, and `SqrtDetermined` that any two functions obeying them
  agree on every `v >= 0`, so the abstraction loses nothing.
- The principal angle is the datatype `Angle`:
  - `Zero`;
  - `QuarterPi`;
  - `HalfAtan2(y, x)`, half the two-argument arctangent of its two arguments.

  The arctangent and the conversion to degrees are not computed. The properties of the
  axis the angle selects are proved through its cosine and sine (`SectionMajorAxis`).

## Model

| member | source | states |
|---|---|---|
| `SectionProperties.RecordSegments` | app.py:15-35 | The first loop records exactly the non-degenerate segments `Segments(sqrt, points)`, with their total length and the two first moments Σ l·ym and Σ l·xm. |
| `SectionProperties.CentroidalMoments` | app.py:45-67 | The second loop returns Jcx, Jcy and Jxy as the sums over the segments of the B.8, B.9 and B.11 contributions about the centroid. |
| `SectionProperties.CalculateSectionProperties` | app.py:10-95 | The calculator returns None exactly when the total length is zero. Otherwise it returns bo, Ac = bo·d, the centroid, the three centroidal moments, the Mohr's-circle principal moments, the three-branch angle and the segments, all as `Section` describes. |
| `SectionProperties.MomentsStep` | app.py:57-67 | Each pass of the second loop adds one segment's contribution to each of the three sums. |
| `SectionTheory.SegmentsRecorded` | app.py:21-35 | Every recorded segment has two distinct endpoints. Its length is positive and equals their distance, and its midpoint is the mean of its endpoints. |
| `SectionTheory.DistinctPairsFacts` | app.py:21-26 | `DistinctPairs` lists, in strictly increasing order, exactly the indices i at which points i and i + 1 differ. |
| `SectionTheory.SegmentsFollowPairs` | app.py:21-35 | The first loop records, in input order, one segment per pair of distinct consecutive points. The j-th segment runs from point i to point i + 1 for the j-th such index i, with their distance and midpoint. |
| `SectionTheory.SegmentsCount` | app.py:21-26 | At most one segment is recorded per pair of consecutive points. |
| `SectionTheory.TotalLengthAppend` | app.py:32 | Recording a segment adds its length to the total. |
| `SectionTheory.PerimeterIsPolylineLength` | app.py:21-32 | The total of the recorded lengths is the length of the polyline over all consecutive pairs. The skipped zero-length pairs add nothing. |
| `SectionTheory.TotalLengthPositive` | app.py:32-37 | The total length of the recorded segments is zero with no segments and positive otherwise. |
| `SectionTheory.SegmentsEmptyIffCoincident` | app.py:21-26 | No segment is recorded if and only if every pair of consecutive points coincides. |
| `SectionTheory.NoneIffCoincident` | app.py:37 | The calculator returns None if and only if every pair of consecutive points coincides. This includes inputs of fewer than two points. |
| `SectionTheory.RemoveRepeatedPoint` | app.py:26 | Removing one of two equal consecutive points leaves the recorded segments unchanged. |
| `SectionTheory.SectionIgnoresRepeatedPoint` | app.py:26 | Removing one of two equal consecutive points leaves the whole result unchanged. |
| `SectionTheory.SectionOfLength` | app.py:84-86 | A result comes back exactly when the polyline length is non-zero. bo is then that length and Ac is bo·d. |
| `SectionTheory.SectionFields` | app.py:84-95 | Each field of a result, in terms of the specification functions of the two loops, the centroid and Mohr's circle: the segments, bo (non-zero), Ac = bo·d, the centroid, Jcx, Jcy, Jxy, J_major, J_minor and the angle. |
| `SectionTheory.AreaIsPerimeterTimesDepth` | app.py:86 | Ac is bo·d. |
| `SectionTheory.PerimeterAndArea` | app.py:85-86 | bo is the polyline length and is positive, and Ac is bo·d. |
| `SectionTheory.MidpointsInBox` | app.py:29-30 | When every point lies in a box, every recorded midpoint lies in it too. |
| `SectionTheory.MomentYBounds` | app.py:34 | When every midpoint x lies in [lo, hi], Σ l·xm lies between lo and hi times the total length. |
| `SectionTheory.MomentXBounds` | app.py:33 | When every midpoint y lies in [lo, hi], Σ l·ym lies between lo and hi times the total length. |
| `SectionTheory.CentroidXBounds` | app.py:40 | x̄ lies between the smallest and largest midpoint x. |
| `SectionTheory.CentroidYBounds` | app.py:41 | ȳ lies between the smallest and largest midpoint y. |
| `SectionTheory.BoxedCentroid` | app.py:40-41 | When all midpoints lie in a box, the length-weighted centroid lies in it. |
| `SectionTheory.CentroidInBoundingBox` | app.py:40-41 | The centroid of a result lies in every box that holds all the points. |
| `SectionTheory.SquareTermNonNegative` | app.py:58 | The bracket y1² + y1·y2 + y2² of B.8 (and B.9) is never negative. |
| `SectionTheory.InertiaNonNegative` | app.py:57-63 | With d ≥ 0, the sums of the B.8 and B.9 contributions are non-negative about any point. |
| `SectionTheory.SectionInertiaNonNegative` | app.py:57-63 | With d ≥ 0, Jcx ≥ 0 and Jcy ≥ 0 for every result. |
| `PrincipalAxes.MohrRadiusFacts` | app.py:72 | The radius is non-negative and its square is diff² + Jxy². |
| `PrincipalAxes.PrincipalBracket` | app.py:70-75 | avg − radius ≤ Jcx, Jcy ≤ avg + radius. |
| `PrincipalAxes.PrincipalDeterminant` | app.py:70-75 | J_major·J_minor = Jcx·Jcy − Jxy², the determinant of the inertia tensor. |
| `PrincipalAxes.MohrRadiusZero` | app.py:72 | The radius is zero if and only if Jcx = Jcy and Jxy = 0. |
| `PrincipalAxes.NoProductOfInertia` | app.py:70-75 | With Jxy = 0 the principal moments are the larger and the smaller of Jcx and Jcy. |
| `PrincipalAxes.AngleBranches` | app.py:78-82 | The angle is 0 if and only if both abs(Jcx − Jcy) and abs(Jxy) are below 1e-6. It is 45° if and only if only the first is. Otherwise it is B.10, half the arctangent of (−2·Jxy, Jcx − Jcy), and then Jcx ≠ Jcy. |
| `PrincipalAxes.AtanArgumentsOnCircle` | app.py:72-82 | The two arguments of the B.10 arctangent lie on the circle of radius J_major − J_minor. |
| `PrincipalAxes.RotatedSquareTerm` | app.py:58-66 | The B.8 bracket in axes rotated by (cos, sin) combines the B.8, B.9 and B.11 brackets. |
| `PrincipalAxes.RotatedContributionLaw` | app.py:57-67 | One segment's B.8 contribution about a rotated axis is cos²·Jx + sin²·Jy − 2·cos·sin·Jxy of its own contributions. |
| `PrincipalAxes.RotationLaw` | app.py:57-67 | The moment of the whole section about a rotated axis is cos²·Jcx + sin²·Jcy − 2·cos·sin·Jxy. |
| `PrincipalAxes.AxisMomentCentered` | app.py:70-71 | On a unit direction, the moment about the axis minus avg is diff·cos 2θ − Jxy·sin 2θ. |
| `PrincipalAxes.AxisMomentBetweenPrincipal` | app.py:70-75 | About every axis, the moment lies between avg − radius and avg + radius. |
| `PrincipalAxes.MajorAxisAttained` | app.py:74-82 | The axis whose double angle points along (Jcx − Jcy, −2·Jxy) carries avg + radius. |
| `PrincipalAxes.PerpendicularAxes` | app.py:70 | The moments about two perpendicular axes add up to Jcx + Jcy. |
| `PrincipalAxes.MinorAxisAttained` | app.py:75-82 | The axis perpendicular to the B.10 axis carries avg − radius. |
| `PrincipalAxes.QuarterPiAxis` | app.py:78-79 | When Jcx = Jcy, the 45° axis carries Jcx − Jxy. That is J_major when Jxy ≤ 0 and J_minor when Jxy ≥ 0. |
| `PrincipalAxes.ZeroAngleNearlyIsotropic` | app.py:78-79 | When the angle is 0, J_major − J_minor is below √5·1e-6. The circle is then almost a point, and every axis is principal to that precision. |
| `PrincipalAxes.SectionPrincipalFromMohr` | app.py:70-82 | Every result takes J_major, J_minor and the angle from Mohr's circle of its Jcx, Jcy and Jxy. |
| `PrincipalAxes.PrincipalMoments` | app.py:70-75 | J_major + J_minor = Jcx + Jcy, J_minor ≤ Jcx, Jcy ≤ J_major, and J_major·J_minor = Jcx·Jcy − Jxy². |
| `PrincipalAxes.SectionPrincipalMoments` | app.py:70-75 | For every result, the trace is kept, and Jcx and Jcy lie between J_minor and J_major. |
| `PrincipalAxes.SectionWithoutProductOfInertia` | app.py:70-75 | For a result with Jxy = 0, {J_major, J_minor} = {Jcx, Jcy}, the larger first. |
| `PrincipalAxes.SectionMomentsFromSegments` | app.py:45-67 | Every result's Jcx, Jcy and Jxy are the sums over its own segments about its own centroid. |
| `PrincipalAxes.AxisMomentsOf` | app.py:57-75 | For properties built from their segments, the B.8 moment about every rotated centroidal axis lies between J_minor and J_major. |
| `PrincipalAxes.SectionAxisMoments` | app.py:57-75 | For every result and every axis through the centroid, J_minor ≤ moment about that axis ≤ J_major. |
| `PrincipalAxes.PrincipalAxesAttained` | app.py:74-82 | The B.10 axis carries J_major and the axis perpendicular to it carries J_minor. |
| `PrincipalAxes.MajorAxisOf` | app.py:74-82 | For properties built from their segments, the B.10 axis, given as (cos, sin), carries J_major of the segments and its perpendicular carries J_minor. |
| `PrincipalAxes.SectionMajorAxis` | app.py:74-82 | For every result in the B.10 branch, the axis at the reported angle carries J_major and its perpendicular carries J_minor. |
| `CriticalSection.ParseColumnType` | app.py:114-135 | Reading a column-type tag gives back a type whose tag is that string. The result is Unrecognized if and only if the string is none of "Interior", "Edge (Left Free)" and "Corner (Top-Left Free)". |
| `CriticalSection.ParseTag` | app.py:114-135 | A recognised column type survives writing its tag and reading it back. |
| `CriticalSection.Generate` | app.py:100-144 | The octagon has nine points and its last point closes it on its first. The edge chain has six points, the corner chain four, and any other type none. Where the points lie is stated by `PointsOnOffsetFaces`. |
| `CriticalSection.GenerateCriticalSection` | app.py:114-144 | Each of the three recognised tags selects its shape, and any other tag gives no points. |
| `CriticalSection.ShapeSizes` | app.py:114-144 | Interior gives 9 points whose last repeats the first, "Edge (Left Free)" gives 6, "Corner (Top-Left Free)" gives 4, and any other tag gives none. |
| `CriticalSection.OpenShapesFollowOctagon` | app.py:116-142 | The edge chain is the octagon without its left face (its first six points). The corner chain is the octagon's points two to five, without its top and left faces. |
| `CriticalSection.OctagonPointSymmetric` | app.py:116-122 | The octagon is symmetric about the column centre: the point four places on is the negation. |
| `CriticalSection.PointsOnOffsetFaces` | app.py:105-142 | Every generated point is the end of a column face moved straight out by dist: x = ±(Cx/2 + dist) with y = ±Cy/2, or y = ±(Cy/2 + dist) with x = ±Cx/2. When Cx, Cy and dist are all ≥ 0, every point lies in the box of half-sizes Cx/2 + dist and Cy/2 + dist. |
| `CriticalSection.GeneratedCentroidInBox` | app.py:105-142 | The centroid of a generated section lies in the box of half-sizes Cx/2 + dist and Cy/2 + dist. |
| `CriticalSection.HorizontalSide` | app.py:117-119 | A horizontal face of the section is as long as the difference of its x ends. |
| `CriticalSection.VerticalSide` | app.py:118-120 | A vertical face is as long as the difference of its y ends. |
| `CriticalSection.DiagonalSide` | app.py:117-120 | A corner chamfer, a step of dist in x and in y, is √(dist² + dist²) long. |
| `CriticalSection.ChamferPositive` | app.py:109-110 | A chamfer is non-negative, and positive when dist ≠ 0. |
| `CriticalSection.PolylineStep` | app.py:21-32 | Adding a point adds its distance from the previous one to the polyline length. |
| `CriticalSection.OctagonHalfLength` | app.py:117-119 | The octagon's first half is Cx + Cy + two chamfers long. |
| `CriticalSection.OctagonLength` | app.py:116-122 | The octagon is 2·Cx + 2·Cy + 4 chamfers long. |
| `CriticalSection.EdgeChainLength` | app.py:126-133 | The edge chain is 2·Cx + Cy + 2 chamfers long. |
| `CriticalSection.CornerChainLength` | app.py:137-142 | The corner chain is Cx + Cy + 1 chamfer long. |
| `CriticalSection.GeneratedPolylineLength` | app.py:100-144 | Every generated polyline is as long as its shape's perimeter. |
| `CriticalSection.ShapePerimeterPositive` | app.py:100-144 | For a column with some size or distance, a shape's perimeter is zero exactly for an unrecognised type. |
| `CriticalSection.GeneratedSectionExists` | app.py:100-144 | For a column with some size or distance, the calculator returns a result for every recognised column type and None for any other tag. |
| `CriticalSection.GeneratedPerimeter` | app.py:100-144 | The result for a generated section has the shape's perimeter as bo. Its Ac is then bo·d, as for every result (`AreaIsPerimeterTimesDepth`). |
| `Layout.StudLineOffset` | app.py:181-186 | The n-th line of studs, the first at s0 and each next one s further out, lies s0 + (n − 1)·s from the face. |
| `Layout.StudCriticalDistance` | app.py:186 | For n ≥ 1, the stud-layout distance s0 + (n − 1)·s + d/2 is the position of the n-th line of studs plus d/2. |
| `Layout.StudDistanceGrows` | app.py:186 | The section lies at least s0 + d/2 from the face when s ≥ 0, and each further line of studs moves it out by s. |
| `PrincipalAxes.MohrRadiusRange` | app.py:72 | max(abs(diff), abs(Jxy)) ≤ radius ≤ abs(diff) + abs(Jxy). |
| `Layout.IsUnsymmetric` | app.py:211 | A section is reported as unsymmetric if and only if Jxy < −1.0 or Jxy > 1.0. What that implies is stated by `UnsymmetricPrincipalSpread` and `SymmetricDisplayClose`. |
| `Layout.UnsymmetricPrincipalSpread` | app.py:211 | When abs(Jxy) > 1.0, the angle is not 0 and J_major − J_minor > 2.0. |
| `Layout.SymmetricDisplayAsWrittenBounds` | app.py:211-228 | When abs(Jxy) ≤ 1.0, the code shows Jcx under the major label and Jcy under the minor one. When Jcx ≥ Jcy they are within 1.0 of J_major and J_minor. When Jcx < Jcy the value under the major label is within 1.0 of J_minor, and the value under the minor label within 1.0 of J_major. |
| `Layout.SymmetricDisplayMislabelled` | app.py:211-228 | For every result with Jxy = 0 and Jcx < Jcy, the section is reported as symmetric, and the value under the major label is J_minor, strictly below J_major. |
| `Layout.SymmetricDisplayClose` | app.py:211-228 | With the display corrected to show the larger of Jcx and Jcy as major: when abs(Jxy) ≤ 1.0, each label shows a value within 1.0 of the principal moment of that name. |
| `Layout.SectionReport` | app.py:211-228 | For every result: when it is reported as unsymmetric, its angle is not 0 and J_major − J_minor > 2.0. Otherwise the corrected display is within 1.0 of J_major and J_minor. |
| `CriticalSection.ChamferAtLeastDistance` | app.py:117-118 | For dist ≥ 0, a chamfer is at least dist long. |
| `GeneratedSections.PairMoments` | app.py:21-34 | Skipping the zero-length pairs changes neither first moment: the sums over the recorded segments equal the sums over all consecutive pairs. |
| `GeneratedSections.PairInertia` | app.py:21-67 | Skipping the zero-length pairs changes none of Jcx, Jcy and Jxy, about any point. |
| `GeneratedSections.OctagonPoints` | app.py:116-122 | The generated octagon is the nine points top face, right face, bottom face, left face and back to the start. |
| `GeneratedSections.OctagonSides` | app.py:116-122 | The octagon's eight sides: two faces Cx long, two Cy long and four chamfers, each with its ends and its midpoint. |
| `GeneratedSections.OctagonMomentX` | app.py:33 | The octagon's sides have no first moment about the x axis: each side cancels its mirror image below the axis. |
| `GeneratedSections.OctagonMomentY` | app.py:34 | The octagon's sides have no first moment about the y axis. |
| `GeneratedSections.OctagonProduct` | app.py:64-66 | The octagon's sides have no product of inertia about the column centre. |
| `GeneratedSections.EdgeChainMomentX` | app.py:33 | The edge chain's five sides have no first moment about the x axis. |
| `GeneratedSections.EdgeChainMomentY` | app.py:34 | The edge chain's first moment about the y axis is c·(Cx + dist) from its chamfers plus Cy·(Cx/2 + dist) from its right face; its top and bottom faces cancel. |
| `GeneratedSections.EdgeChainProduct` | app.py:64-66 | The edge chain has no product of inertia about any point of the x axis. |
| `GeneratedSections.OctagonSegments` | app.py:116-122 | The segments the calculator records for the octagon have both first moments zero and no product of inertia about the column centre. |
| `GeneratedSections.EdgeChainSegments` | app.py:126-133 | The segments the calculator records for the edge chain: no first moment about the x axis, a first moment about the y axis of c·(Cx + dist) + Cy·(Cx/2 + dist), and no product of inertia about any point of the x axis. |
| `GeneratedSections.GeneratedInteriorCentred` | app.py:116-122 | For every interior column, the calculator puts the centroid at the column centre and finds Jxy = 0, so the section is reported as symmetric. |
| `GeneratedSections.EdgeChainMomentPositive` | app.py:126-133 | For Cx, Cy > 0 and dist ≥ 0, the edge chain's first moment about the y axis is positive. |
| `GeneratedSections.GeneratedEdgeShift` | app.py:126-133 | For Cx, Cy > 0 and dist ≥ 0, the edge chain gets a result whose centroid lies on the x axis strictly right of the column centre (x̄ > 0), away from the free left face, with Jxy = 0. |
| `GeneratedSections.WideOctagonInertia` | app.py:57-63 | The octagon around a 20 × 12 column at dist 25.3 and d = 5.62, with chamfers at least 25.3 long, has Jcx < Jcy about its centre. |
| `GeneratedSections.MislabelledInterior` | app.py:211-228 | For that interior column the result has Jxy = 0 and Jcx < Jcy, is reported as symmetric, and shows J_minor under the major label and J_major under the minor one. |

## Left out

- The Streamlit form (app.py:149-190), the results display (app.py:194-228) and the
  plotting (app.py:230-263) are input, output and drawing. Only the rules inside them that
  compute or choose something are modelled: the stud-layout distance, the unsymmetric test
  and which moment is shown under which label.
  The default trial distance of the form (app.py:176) is not modelled.
- Floating point: the model computes with exact reals. Rounding, the `:.2f` formatting and
  float comparisons of nearly equal values are not modelled. The test `l == 0` is modelled
  as exact equality of the computed length with zero.
- `math.sqrt`, `math.atan2`, `math.pi` and `math.degrees` are library functions.
  - The square root is a parameter constrained by its laws (see `IsSqrt`).
  - The angle is kept symbolic as `Angle`. The model does not compute the angle in
    degrees, and does not prove its range [−90°, 90°]. Both ends occur: with Jxy = 0.0 the
    first argument of atan2 is −0.0, and atan2(−0.0, negative) is −π. Exact reals have no
    signed zero, so this is not modelled.
- The calculator's input points are pairs of numbers. The model takes them as `Point`
  values, and the segment records keep the same five fields (p1, p2, l, xm, ym).
- The calculator as written does not return extreme-fiber distances or per-segment
  contributions. The model follows the code and leaves them out.
- The generator takes the full column sizes Cx and Cy and halves them (app.py:105-106). The
  model does the same, rather than taking half-sizes as inputs.
- A section with Jxy exactly 0 and Jcy − Jcx ≥ 1e-6 is "fully symmetric", yet the code
  does not report a 0° angle for it. (When Jcy − Jcx < 1e-6 the first test of app.py:78
  holds and the angle is 0°.)
  - The code takes the B.10 branch. `atan2(±0, negative)` gives ±180°, so the reported
    angle is ±90°. `SectionMajorAxis` shows that the axis at that angle is the one that
    carries J_major, which is then Jcy.
  - The model follows the code: `PrincipalAngle` gives `HalfAtan2(-2·Jxy, Jcx − Jcy)` there.
- `PrincipalAxes.QuarterPiAxis`: when Jcx = Jcy and abs(Jxy) ≥ 1e-6, the code reports 45°. The
  45° axis carries J_major only when Jxy < 0. When Jxy > 0 it carries J_minor, and the major
  axis is at −45°. The model keeps the code's 45° and states which moment the axis carries.
- The corner chain's product of inertia is not proved non-zero. Its centroid is a quotient
  by the perimeter, which holds a chamfer, and Jxy about it is a polynomial inequality in
  that quotient and the chamfer; only Jxy = 0 for the interior and edge shapes is proved.
- `GeneratedSections.WideOctagonInertia`: Jcx < Jcy is proved for one interior column
  (20 × 12, dist 25.3, d = 5.62), not for every column wider than it is deep.
- `Layout.StudCriticalDistance`: the form only accepts whole numbers n ≥ 2 of stud lines
  (app.py:183). The formula is defined for every integer n, and its link to the n-th line
  of studs is stated for n ≥ 1.

## Findings

| source | as written | input that shows it | evidently intended | confidence | as-written member | corrected member |
|---|---|---|---|---|---|---|
| app.py:225-228 | A section with abs(Jxy) ≤ 1.0 is shown with Jcx under the label "Major Axis" and Jcy under "Minor Axis", whatever their order. | An interior column with Cx = 20, Cy = 12, the default trial distance 25.3 and d = 5.62: the octagon has Jxy = 0 and Jcx < Jcy, so J_minor is shown as the major moment. | The larger of Jcx and Jcy is shown as the major moment and the smaller as the minor one. | medium, not executed | `GeneratedSections.MislabelledInterior` | `Layout.SymmetricDisplayClose` |
