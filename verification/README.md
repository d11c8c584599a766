# Photon propagation through hole ice, cylinders and ice layers

This project models the photon-propagation core of clsim, the IceCube photon
simulation, as extended for hole ice. The model covers:

- **Intersection geometry.** A straight photon step from A to B is tested
  against a circle (a hole-ice or cable cylinder seen from above). The model
  covers the quadratic coefficients, the line roots, the crossing ratios and
  points, whether the step starts or ends inside, and the fraction of the
  step inside (module `Intersection`).
- **Hole-ice distance correction.** The length a trajectory is stretched to
  inside hole ice, by its crossing pattern. Both the function as shipped and
  the function as intended are modelled (module `HoleIce`).
- **Medium-change propagation kernel** (module `Propagation`). It:
  - collects the cylinders within the photon's reach;
  - records a medium change at each cylinder entry and exit;
  - sorts the changes in place with an exchange sort (module `ExchangeSorting`);
  - walks the sorted changes, spending the scattering and absorption budgets;
  - makes the final step in the last medium.

  Both the kernel as written and a corrected kernel are modelled. The
  corrected one sorts every change and does not charge the walked distance
  twice (see "## Findings").
- **Layer changes.** The ice-layer changes on the photon path, appended one
  layer thickness apart (module `IceLayers`).
- **Standard kernel.** The layer-by-layer kernel that does not use cylinders,
  with the directional absorption correction factor (module `StandardClsim`).
- **Photon-table binning.** Row-major shape, strides, flat-index unravelling
  and bin volumes (module `Binning`).
- **Python table maker.** Table arithmetic, compatibility checks,
  normalisation and bin-index clamping (module `PhotoTables`).
- **Module helper.** How the wavelength generators and the OpenCL work
  sizes are chosen (module `WavelengthGeneration`).

Modelling conventions:

- **Numbers.** Floating point is modelled by exact reals.
- **NaN.** A NaN result is `None` of an `Option`. A fatal error is the
  `Failure` of a `Result`.
- **Square root.** The square root of the discriminant is a parameter
  `root` that the caller supplies, together with the predicate that it is
  the root.
- **Medium tables.** The per-layer tables are functions inside a `Medium`
  value. The three parallel arrays of the kernels (distances, scattering
  lengths, absorption lengths) become one array of `MediumChange` records.
- **Mutable objects.** A C++ or Python object whose fields change is a
  class: `Binning.Axes`, `PhotoTables.PhotoTable` and
  `PhotoTables.Tabulator`.

Where the code and its accompanying description differ, the model follows
the code:

- **Return value.** `hole_ice_corrected_distance` returns the corrected
  length, not the correction.
- **Entry point.** The case 5 fallback uses the ratio inside the cylinder,
  not an entry sub-segment.
- **Starting inside.** "Starts inside" is decided by the sign pattern of
  the two line roots, not by a distance test.
- **Final clamp.** The causality clamp is the one of
  propagation_through_media.c:188-194.

## Model

| member | source | states |
|---|---|---|
| Media.ClampLayer | resources/kernels/lib/propagation_through_media/propagation_through_media.c:26 | the clamped layer index is always a valid layer, equals the index when that is valid, 0 below the table and the top layer above it |
| Media.PhotonLayer | resources/kernels/lib/ice_layers/ice_layers.c:66-69 | the photon's layer is a valid layer and equals the table's layer for the height whenever that is in range |
| Media.Abs | resources/kernels/lib/ice_layers/ice_layers.c:38-39 | the absolute value is non-negative and is the argument or its negation |
| Intersection.Alpha | resources/kernels/lib/intersection/intersection.c:3-6 | the quadratic's leading coefficient is never negative |
| Intersection.CoefficientsMeaning | resources/kernels/lib/intersection/intersection.c:3-20 | alpha is the squared step length, gamma the squared distance from A to the centre less r², so gamma < 0 exactly when A lies inside the circle |
| Intersection.QuadraticIsDistance | resources/kernels/lib/intersection/intersection.c:3-20 | the quadratic at s is the squared distance of the point A + s(B − A) from the centre, less r² |
| Quadratics.RootSolves | resources/kernels/lib/intersection/intersection.c:27-31 | each line root (−β ± √disc)/2α is a zero of the quadratic |
| Quadratics.Roots | resources/kernels/lib/intersection/intersection.c:27-41 | the minus root is at most the plus root, they coincide exactly when the discriminant is zero, and they satisfy Vieta's relations |
| Quadratics.RootSigns | resources/kernels/lib/intersection/intersection.c:84-89 | for two roots with Vieta's relations, smaller ≤ 0 < larger (distinct) exactly when c < 0, or c = 0 and b < 0 |
| Quadratics.ZeroBetweenRoots | resources/kernels/lib/intersection/intersection.c:84-94 | there are two distinct roots with smaller ≤ 0 < larger exactly when c < 0, or c = 0 and b < 0 |
| Quadratics.OneBetweenRoots | resources/kernels/lib/intersection/intersection.c:96-101 | there are two distinct roots with smaller < 1 ≤ larger exactly when the quadratic at 1 is negative, or zero while rising |
| Intersection.LineRoots | resources/kernels/lib/intersection/intersection.c:22-41 | s1 and s2 for lines both solve the quadratic, s1 ≤ s2, and they are equal exactly when the discriminant is zero |
| Intersection.S | resources/kernels/lib/intersection/intersection.c:43-62 | the crossing ratio exists (is not NaN) exactly when alpha > 0, disc ≥ 0 and the line root lies strictly between 0 and 1, and it then is that root |
| Intersection.RatioOnCircle | resources/kernels/lib/intersection/intersection.c:43-52 | a crossing ratio places the point on the circle |
| Intersection.CrossingPointsOnCircle | resources/kernels/lib/intersection/intersection.c:64-82 | x1/y1 (x2/y2) exist exactly when s1 (s2) does, and the points lie on the circle |
| Intersection.CrossingPointOnCircle | resources/kernels/lib/intersection/intersection.c:64-82 | a crossing point computed from a ratio lies on the circle |
| Intersection.StartsInsideIff | resources/kernels/lib/intersection/intersection.c:84-94 | starts inside ⇔ gamma < 0 or (gamma = 0 and beta < 0); starts outside ⇔ the complement |
| Intersection.EndsInsideIff | resources/kernels/lib/intersection/intersection.c:96-101 | ends inside ⇔ B lies strictly inside the circle, or on it with the step arriving from inside |
| Intersection.NumberOfIntersections | resources/kernels/lib/intersection/intersection_test.c:39-50 | the count is the number of distinct crossing ratios, at most 2, zero exactly when neither ratio exists, two exactly when both exist with a positive discriminant |
| Intersection.RatioInside | resources/kernels/lib/intersection/intersection_test.c:107-120 | the fraction inside lies in [0, 1] and is 0 when the discriminant is not positive |
| Intersection.RatioInsideCases | resources/kernels/lib/intersection/intersection_test.c:107-120 | the fraction inside is s2 − s1 for two crossings, s2 when starting inside, 1 − s1 when ending inside, 1 or 0 with no crossing from inside or outside |
| Intersection.InsideStartIsClassified | resources/kernels/lib/intersection/intersection.c:84-89 | a step starting strictly inside is classified as starting inside and has no entry ratio |
| IntersectionExamples.CoefficientsOfExamples | resources/kernels/lib/intersection/intersection_test.c:11-37 | the coefficients of the four test configurations |
| IntersectionExamples.TangentExample | resources/kernels/lib/intersection/intersection_test.c:52-108 | tangent: s1 = s2 = 0.2, the point (1, 0.5), one intersection, not starting inside, nothing inside |
| IntersectionExamples.TwoCrossingsExample | resources/kernels/lib/intersection/intersection_test.c:58-113 | chord: s1 = 0.1, s2 = 0.3, points (0.5, 1) and (1.5, 1), two intersections, fraction inside within (0.19, 0.21) |
| IntersectionExamples.MissingExample | resources/kernels/lib/intersection/intersection_test.c:64-116 | miss: every ratio and point is NaN, no intersection, nothing inside |
| IntersectionExamples.FromInsideExample | resources/kernels/lib/intersection/intersection_test.c:70-119 | start inside: s1 NaN, s2 = 0.25, exit point (2, 1), one intersection, a quarter inside |
| IntersectionExamples.TangentRatios | resources/kernels/lib/intersection/intersection_test.c:77-80 | the tangent ratios from the coefficients alone |
| IntersectionExamples.ChordRatios | resources/kernels/lib/intersection/intersection_test.c:81-84 | the chord ratios from the coefficients alone |
| IntersectionExamples.MissRatios | resources/kernels/lib/intersection/intersection_test.c:85-88 | a negative discriminant yields no ratio for any root |
| IntersectionExamples.InsideRatios | resources/kernels/lib/intersection/intersection_test.c:89-92 | the start-inside ratios from the coefficients alone |
| HoleIce.Classify | resources/kernels/lib/hole_ice/hole_ice.c:27-44 | the crossing pattern has at most two crossings, a fraction inside in [0, 1], an entry ratio in (0, 1) when present, and one whenever there are two crossings |
| HoleIce.TwoCrossingsStartOutside | resources/kernels/lib/hole_ice/hole_ice.c:96-99 | a step with two crossings never starts inside, so case 6 cannot arise from geometry |
| HoleIce.CorrectedDistanceShipped | resources/kernels/lib/hole_ice/hole_ice.c:35-70 | as shipped, every pattern other than "within" and "entering" keeps the trajectory length |
| HoleIce.CorrectedDistanceIntended | resources/kernels/lib/hole_ice/hole_ice.c:35-104 | without the early return: NaN for case 6 and for unlisted patterns exactly, NaN from 1/factor only for factor 0 in cases 4 and 5, a value otherwise |
| HoleIce.ShippedAgreesOnFirstCases | resources/kernels/lib/hole_ice/hole_ice.c:35-67 | cases 1-3 agree between both versions: length, factor·length, length + (factor − 1)·inside |
| HoleIce.ShippedSkipsCaseFour | resources/kernels/lib/hole_ice/hole_ice.c:70-80 | for 10 of 12 units inside and factor ½, the intended case 4 gives 6 while the shipped code gives 12 |
| HoleIce.LeavingFallbackIsContinuous | resources/kernels/lib/hole_ice/hole_ice.c:73-80 | case 4 meets its fallback: where f·L equals the length inside, the shortened length is case 2's f·L |
| HoleIce.PassingFallbackJumps | resources/kernels/lib/hole_ice/hole_ice.c:83-92 | case 5 does not meet its fallback: factor ½, length 10 entered at 0.2 with 4 inside gives 6 by the formula at the boundary and 8 by the fallback |
| HoleIce.CorrectionScales | resources/kernels/lib/hole_ice/hole_ice.c:35-104 | scaling the trajectory by k > 0 with the same crossing pattern scales the intended corrected length by k, or fails in the same way |
| HoleIce.UnitFactorIsNeutral | resources/kernels/lib/hole_ice/hole_ice.c:36-91 | an interaction factor of 1 leaves every length unchanged in both versions |
| HoleIce.InsideWithin | resources/kernels/lib/hole_ice/hole_ice.c:44 | the length inside lies between 0 and the whole length |
| HoleIce.CorrectedDistanceNonNegative | resources/kernels/lib/hole_ice/hole_ice.c:36-91 | a positive factor never yields a negative corrected length, in either version |
| HoleIce.CorrectedDistance | resources/kernels/lib/hole_ice/hole_ice.c:6-44 | the intended correction: from a real crossing problem, case 6 and unlisted patterns never occur, and any non-zero factor gives a value |
| HoleIce.ProblemCorrectionNonNegative | resources/kernels/lib/hole_ice/hole_ice.c:6-104 | for a real crossing problem and a positive factor, both versions give a non-negative length |
| HoleIceExamples.OutsideCrossing | resources/kernels/lib/hole_ice/hole_ice_test.c:21-25 | the pattern of a step outside the hole ice, and no correction |
| HoleIceExamples.WithinCrossing | resources/kernels/lib/hole_ice/hole_ice_test.c:27-31 | the pattern of a step wholly inside |
| HoleIceExamples.EnteringCrossing | resources/kernels/lib/hole_ice/hole_ice_test.c:33-37 | the pattern of a step entering the hole ice |
| HoleIceExamples.LeavingCrossing | resources/kernels/lib/hole_ice/hole_ice_test.c:79-83 | the pattern of a step leaving the hole ice |
| HoleIceExamples.PassingCrossing | resources/kernels/lib/hole_ice/hole_ice_test.c:85-89 | the pattern of a step passing through |
| HoleIceExamples.OutsideExample | resources/kernels/lib/hole_ice/hole_ice_test.c:21-25 | case 1: correction 0 for factors 0 and ½ |
| HoleIceExamples.WithinExample | resources/kernels/lib/hole_ice/hole_ice_test.c:27-31 | case 2: corrections −10 and −5 |
| HoleIceExamples.EnteringExample | resources/kernels/lib/hole_ice/hole_ice_test.c:33-37 | case 3: corrections −10 and −5 |
| HoleIceExamples.LeavingExample | resources/kernels/lib/hole_ice/hole_ice_test.c:79-83 | case 4 falling back to case 2: correction −6, which the shipped code does not produce |
| HoleIceExamples.PassingExample | resources/kernels/lib/hole_ice/hole_ice_test.c:85-89 | case 5 falling back to case 3: correction −10, which the shipped code does not produce |
| ExchangeSorting.SwapIfFurther | resources/kernels/lib/propagation_through_media/propagation_through_media.c:136-146 | a compare-and-swap permutes the changes and touches only positions k and l |
| ExchangeSorting.ExchangeSort | resources/kernels/lib/propagation_through_media/propagation_through_media.c:134-148 | the sorted changes are a permutation of the input |
| ExchangeSorting.InnerPassKeeps | resources/kernels/lib/propagation_through_media/propagation_through_media.c:135-147 | after the inner pass for k, positions up to k are sorted and position k holds the largest distance |
| ExchangeSorting.OuterPassSorts | resources/kernels/lib/propagation_through_media/propagation_through_media.c:134-148 | the remaining outer passes leave the changes sorted by distance |
| ExchangeSorting.ExchangeSortSorts | resources/kernels/lib/propagation_through_media/propagation_through_media.c:134-148 | the exchange sort orders the changes by distance and keeps them as a permutation |
| ExchangeSorting.SortAsWritten | resources/kernels/lib/propagation_through_media/propagation_through_media.c:134-135 | with the bound as written, the result is a permutation that never moves the last change |
| ExchangeSorting.SortAsWrittenLeavesLastOutOfOrder | resources/kernels/lib/propagation_through_media/propagation_through_media.c:134-135 | changes at 0, 0.8, 0.3 stay unsorted with the bound as written and are sorted with the corrected bound |
| ExchangeSorting.SortChanges | resources/kernels/lib/propagation_through_media/propagation_through_media.c:134-148 | the in-place sort of the first n slots leaves exactly ExchangeSort of them and the other slots unchanged |
| ExchangeSorting.InnerLoop | resources/kernels/lib/propagation_through_media/propagation_through_media.c:135-147 | one in-place inner loop equals the inner pass |
| ExchangeSorting.CompareAndSwap | resources/kernels/lib/propagation_through_media/propagation_through_media.c:136-146 | one in-place compare-and-swap equals SwapIfFurther |
| Propagation.InRangeBelow | resources/kernels/lib/propagation_through_media/propagation_through_media.c:46-67 | the in-range list has no more entries than cylinders examined, each an index of one of them |
| Propagation.InRangeBelowMeaning | resources/kernels/lib/propagation_through_media/propagation_through_media.c:46-67 | the list is strictly increasing and holds exactly the indices of the cylinders within horizontal reach and not beyond the z window |
| Propagation.Padding | resources/kernels/lib/propagation_through_media/propagation_through_media.c:48-50 | the padding is n sentinels −1 |
| Propagation.FindCylindersInRange | resources/kernels/lib/propagation_through_media/propagation_through_media.c:46-67 | a fresh array holding the in-range indices in order, followed by −1 sentinels up to the number of cylinders |
| Propagation.UpToSentinel | resources/kernels/lib/propagation_through_media/propagation_through_media.c:72-75 | the indices read before the first −1 are a prefix containing no −1 |
| Propagation.SentinelEndsList | resources/kernels/lib/propagation_through_media/propagation_through_media.c:72-75 | reading a list of real indices followed by padding gives back exactly that list |
| Propagation.ApplyCylinder | resources/kernels/lib/propagation_through_media/propagation_through_media.c:103-122 | one cylinder adds at most two changes and removes none |
| Propagation.ApplyCylinderEffect | resources/kernels/lib/propagation_through_media/propagation_through_media.c:103-122 | a cylinder around the start overwrites the current lengths; an entry at s1 > 0 appends the cylinder's lengths; an exit at s2 > 0 appends the lengths of the layer at the exit height; earlier changes stay |
| Propagation.MissedCylinderChangesNothing | resources/kernels/lib/propagation_through_media/propagation_through_media.c:103 | a cylinder with a non-positive discriminant leaves the changes as they are |
| Propagation.Collect | resources/kernels/lib/propagation_through_media/propagation_through_media.c:72-126 | collecting over the in-range cylinders adds at most two changes per cylinder |
| Propagation.CollectWellFormed | resources/kernels/lib/propagation_through_media/propagation_through_media.c:72-126 | all collected changes have positive lengths and non-negative distances |
| Propagation.CollectChanges | resources/kernels/lib/propagation_through_media/propagation_through_media.c:72-126 | the in-place loop leaves Collect of the initial change in the slots up to the returned count and the rest unchanged |
| Propagation.ApplyCylinderInPlace | resources/kernels/lib/propagation_through_media/propagation_through_media.c:103-122 | the in-place update equals ApplyCylinder and leaves later slots unchanged |
| Propagation.ConsumeMeaning | resources/kernels/lib/propagation_through_media/propagation_through_media.c:160-173 | one medium spends min(segment, budget·length) of its distance from the budget, and the budget stays positive exactly when it reaches past the segment |
| Propagation.WalkMonotone | resources/kernels/lib/propagation_through_media/propagation_through_media.c:158-182 | walking sorted changes keeps budgets non-negative and non-increasing and distances non-decreasing |
| Propagation.WalkReachesLast | resources/kernels/lib/propagation_through_media/propagation_through_media.c:158-182 | if scattering budget remains, the photon has travelled exactly to the last change |
| Propagation.WalkStopsSpent | resources/kernels/lib/propagation_through_media/propagation_through_media.c:158 | the walk stops at once on a spent scattering budget, and a budget left at the end was positive at the start |
| Propagation.Spend | resources/kernels/lib/propagation_through_media/propagation_through_media.c:160-166 | the budget update in place equals Consume |
| Propagation.WalkChanges | resources/kernels/lib/propagation_through_media/propagation_through_media.c:158-182 | the walk loop over the array equals the Walk specification |
| Propagation.Finish | resources/kernels/lib/propagation_through_media/propagation_through_media.c:185-194 | as written: the distance travelled is the smaller of the scattering and absorption distances, with absorption zeroed when it comes first, and otherwise the whole distance travelled is charged to the absorption budget |
| Propagation.FinishIntendedKeepsBudget | resources/kernels/lib/propagation_through_media/propagation_through_media.c:185-194 | the corrected final step keeps budgets non-negative, and the absorption budget left is exactly the way still to absorption in the last absorption length |
| Propagation.FinishChargesWalkTwice | resources/kernels/lib/propagation_through_media/propagation_through_media.c:193 | one unit walked with budgets 3 and 10 leaves 6 absorption lengths as written and 7 as intended |
| Propagation.Changes | resources/kernels/lib/propagation_through_media/propagation_through_media.c:24-126 | the change list always holds at least the photon's starting medium |
| Propagation.PropagationWellFormed | resources/kernels/lib/propagation_through_media/propagation_through_media.c:24-148 | corrected kernel: the change list sorted in full is ordered by distance and all its lengths are positive |
| Propagation.AsWrittenWellFormed | resources/kernels/lib/propagation_through_media/propagation_through_media.c:24-148 | as written: the changes the kernel walks have positive lengths and non-negative distances, though the last one may be out of order |
| Propagation.CollectedChanges | resources/kernels/lib/propagation_through_media/propagation_through_media.c:24-126 | fresh arrays holding the starting medium and the collected changes up to the returned count |
| Propagation.SortedChanges | resources/kernels/lib/propagation_through_media/propagation_through_media.c:24-148 | corrected kernel: with the sort run over slot `count` as well, the array holds the exchange-sorted change list |
| Propagation.SortedChangesAsWritten | resources/kernels/lib/propagation_through_media/propagation_through_media.c:24-148 | as written: with the sort bounded below `count`, the array holds SortAsWritten of the change list, whose last change stays last |
| Propagation.ApplyPropagation | resources/kernels/lib/propagation_through_media/propagation_through_media.c:21-194 | corrected kernel: the outputs are Propagate, i.e. collect, sort in full, walk, and the intended final step |
| Propagation.ApplyPropagationAsWritten | resources/kernels/lib/propagation_through_media/propagation_through_media.c:21-194 | as written: the outputs are PropagateAsWritten, i.e. collect, the sort bounded below `count`, walk, and the final step of line 193 |
| Propagation.FinishOverchargesByWalk | resources/kernels/lib/propagation_through_media/propagation_through_media.c:185-194 | the two final steps agree on the distances and the scattering budget; unless absorbed, the step as written leaves less absorption budget, short by exactly the distance already charged, in absorption lengths |
| Propagation.AsWrittenAgreesWithoutCylinders | resources/kernels/lib/propagation_through_media/propagation_through_media.c:21-194 | without cylinders and from a zero distance to absorption, the kernel as written and the corrected one give the same outputs |
| Propagation.NoCylinderKeepsLayer | resources/kernels/lib/propagation_through_media/propagation_through_media.c:185-191 | without cylinders the photon travels min(scattering distance, absorption distance) in its own layer |
| Propagation.PropagateBounds | resources/kernels/lib/propagation_through_media/propagation_through_media.c:158-194 | corrected kernel: from zero distances and non-negative budgets, the result has non-negative budgets, no more scattering budget, a non-negative distance, and never passes the absorption point |
| IceLayers.ClosestBoundary | resources/kernels/lib/ice_layers/ice_layers.c:12-15 | the first boundary is the layer's own boundary going down and one thickness higher going up |
| IceLayers.LayerStep | resources/kernels/lib/ice_layers/ice_layers.c:38-39 | the trajectory length between two layers is positive |
| IceLayers.LayerStepClimbsOneLayer | resources/kernels/lib/ice_layers/ice_layers.c:38-39 | that length times |dz| is exactly one layer thickness |
| IceLayers.FirstChange | resources/kernels/lib/ice_layers/ice_layers.c:17-26 | the first change is at the distance to the closest boundary, with the fixed scattering length and the absorption length beyond the boundary |
| IceLayers.LoopChangesShape | resources/kernels/lib/ice_layers/ice_layers.c:40-53 | the loop adds changes one layer step apart, all below the range, none when the first step already reaches it, and the next step would reach it |
| IceLayers.LoopChangesIncrease | resources/kernels/lib/ice_layers/ice_layers.c:40-53 | the loop's distances strictly increase from the starting distance |
| IceLayers.ChangesFrom | resources/kernels/lib/ice_layers/ice_layers.c:17-53 | the layer changes begin with the first change |
| IceLayers.IceLayerChanges | resources/kernels/lib/ice_layers/ice_layers.c:6-53 | at least one layer change is always added |
| IceLayers.ChangesFromDistances | resources/kernels/lib/ice_layers/ice_layers.c:40-53 | after the first change, each change is one step further and below the range, and the step after the last reaches it |
| IceLayers.IceLayerDistances | resources/kernels/lib/ice_layers/ice_layers.c:12-45 | the first distance is (boundary − z)/dz, then one layer step each while below the range, and the next would be beyond it |
| IceLayers.IceLayerLengths | resources/kernels/lib/ice_layers/ice_layers.c:22-52 | every added change has scattering length 10000 and a positive absorption length |
| IceLayers.LoopChangeLengths | resources/kernels/lib/ice_layers/ice_layers.c:46-52 | a loop change has the fixed scattering length and its layer's positive absorption length |
| IceLayers.AddIceLayers | resources/kernels/lib/ice_layers/ice_layers.c:6-53 | the changes are written after the current count, the count grows by their number, and no other slot changes |
| IceLayers.AppendLayerChanges | resources/kernels/lib/ice_layers/ice_layers.c:40-53 | the while loop appends exactly LoopChanges and leaves other slots unchanged |
| StandardClsim.WalkDown | resources/kernels/lib/propagation_through_media/standard_clsim.c:71-77 | the downward walk ends at a layer no higher, with positive lengths kept |
| StandardClsim.WalkUp | resources/kernels/lib/propagation_through_media/standard_clsim.c:78-85 | the upward walk ends at a layer no lower and within the table, with positive lengths kept |
| StandardClsim.Walk | resources/kernels/lib/propagation_through_media/standard_clsim.c:69-85 | the walk ends in a valid layer with positive lengths |
| StandardClsim.ApplyStandardClsim | resources/kernels/lib/propagation_through_media/standard_clsim.c:10-125 | the kernel's two loops and outputs equal the Standard specification |
| StandardClsim.WriteDistances | resources/kernels/lib/propagation_through_media/standard_clsim.c:91-104 | the two distances written are those of Distances |
| StandardClsim.StartWalkMeaning | resources/kernels/lib/propagation_through_media/standard_clsim.c:21-62 | the walk starts in the photon's layer, at its lower or upper boundary by direction, with that layer's lengths, and budgets that are the remaining budgets less the way to that boundary, in thicknesses |
| StandardClsim.WalkDownMeaning | resources/kernels/lib/propagation_through_media/standard_clsim.c:71-77 | going down, the boundary drops a thickness per layer, the lengths are those of the layer reached, and the loop stops at the bottom or when a budget no longer reaches |
| StandardClsim.WalkDownBudget | resources/kernels/lib/propagation_through_media/standard_clsim.c:71-77 | going down, each budget grows by the sum of reciprocal lengths of the layers entered |
| StandardClsim.WalkUpMeaning | resources/kernels/lib/propagation_through_media/standard_clsim.c:78-85 | going up, the boundary rises a thickness per layer, the lengths are those of the layer reached, and the loop stops at the top or when a budget no longer reaches |
| StandardClsim.WalkUpBudget | resources/kernels/lib/propagation_through_media/standard_clsim.c:78-85 | going up, each budget shrinks by the sum of reciprocal lengths of the layers entered |
| StandardClsim.MovedDistanceMeaning | resources/kernels/lib/propagation_through_media/standard_clsim.c:95-99 | the computed distance leaves exactly the remaining budget, in thicknesses, beyond the final boundary in the final layer's length |
| StandardClsim.StayingBranchesAgree | resources/kernels/lib/propagation_through_media/standard_clsim.c:91-104 | for a photon that stays in its layer, the general formula gives the same distance as the shortcut |
| StandardClsim.UpwardSpendsScatteringBudget | resources/kernels/lib/propagation_through_media/standard_clsim.c:55-99 | going up, the way to the first boundary, the layers entered and the part of the final layer add up to the scattering budget exactly |
| StandardClsim.DownwardSpendsScatteringBudget | resources/kernels/lib/propagation_through_media/standard_clsim.c:55-99 | the same exact accounting going down |
| StandardClsim.OverburdenMeaning | resources/kernels/lib/propagation_through_media/standard_clsim.c:114-120 | the photon stops at the earlier of scattering and absorption; the absorption budget is 0 when absorption comes first and otherwise the way left to absorption, in absorption lengths |
| StandardClsim.CorrectionFactorHoisted | resources/kernels/lib/propagation_through_media/standard_clsim.c:33-123 | the correction factor multiplies the absorption budget on the way in and divides it out on the way out; a factor of 1 changes nothing |
| StandardClsim.WithinLayerStep | resources/kernels/lib/propagation_through_media/standard_clsim.c:91-120 | a photon that stays in its layer and scatters first travels its scattering budget in that layer's length and keeps the rest of the way to absorption |
| StandardClsim.CoreInOwnLayer | resources/kernels/lib/propagation_through_media/standard_clsim.c:91-120 | a photon that stays in its layer gets the single-layer result |
| StandardClsim.WalkStaysPut | resources/kernels/lib/propagation_through_media/standard_clsim.c:69-85 | a walk that ends in its starting layer has changed nothing |
| Binning.Shape | private/clsim/tabulator/Axes.cxx:26-33 | one bin count per axis, all positive when every axis has a bin |
| Binning.Strides | private/clsim/tabulator/Axes.cxx:26-33 | one stride per axis |
| Binning.StridesMeaning | private/clsim/tabulator/Axes.cxx:26-33 | the last stride is 1, each stride is the next stride times the next axis's bin count, and the first stride times the first count is the total |
| Binning.Unravel | private/clsim/tabulator/Axes.cxx:65-74 | unravelling a flat index gives one index per axis, each within its axis's bins |
| Binning.RavelUnravel | private/clsim/tabulator/Axes.cxx:65-74 | ravelling the unravelled index in row-major order gives back the flat index modulo the total number of bins, and gives it back exactly when it is in range |
| Binning.ShapeAsWritten | private/clsim/tabulator/Axes.cxx:29-32 | the shape as written has one entry per axis |
| Binning.AsWrittenCountsLastAxisOnly | private/clsim/tabulator/Axes.cxx:26-33 | as written, every count but the last is 1 and the total is the last axis's bin count: axes of 3 and 4 bins give 4 instead of 12 |
| Binning.VolumeNonNegative | private/clsim/tabulator/Axes.cxx:94-132 | the spherical and cylindrical bin volumes of ascending axes are non-negative |
| Binning.RowMajorLayout | private/clsim/tabulator/Axes.cxx:26-33 | the constructor's loop computes exactly Shape and Strides |
| Binning.Axes.constructor | private/clsim/tabulator/Axes.cxx:26-34 | the object holds the axes and geometry and its shape, strides and total bin count are consistent |
| Binning.Axes.BinVolume | private/clsim/tabulator/Axes.cxx:65-74 | the volume of a flat bin index is the geometry's volume of its unravelled indices |
| PhotoTables.AddGrid | python/tablemaker/tabulator.py:69-70 | adding grids keeps the shape and the number of cells |
| PhotoTables.ScaleGrid | python/tablemaker/tabulator.py:79-80 | scaling a grid keeps the shape and the number of cells |
| PhotoTables.Zeros | python/tablemaker/tabulator.py:166-167 | a zero grid is well formed with the given shape |
| PhotoTables.ZerosAreNeutral | python/tablemaker/tabulator.py:166-167 | adding zeros changes nothing, and scaled zeros stay zeros |
| PhotoTables.Centers | python/tablemaker/tabulator.py:63 | one bin centre per bin |
| PhotoTables.Widths | python/tablemaker/tabulator.py:64 | one bin width per bin |
| PhotoTables.CenterAndWidthSpanBin | python/tablemaker/tabulator.py:63-64 | centre ± half the width are the bin's two edges, and the centre lies between them |
| PhotoTables.Incompatibility | python/tablemaker/tabulator.py:84-102 | two tables are compatible exactly when the shapes match, neither has NaN values and all header entries except n_photons agree; otherwise the first failing check is reported |
| PhotoTables.CompatibleWithItself | python/tablemaker/tabulator.py:84-102 | a table without NaN values is compatible with itself |
| PhotoTables.Added | python/tablemaker/tabulator.py:67-73 | the sum of two consistent tables of the same shape is consistent |
| PhotoTables.Scaled | python/tablemaker/tabulator.py:78-82 | scaling keeps a table consistent |
| PhotoTables.Divided | python/tablemaker/tabulator.py:75-76 | division fails exactly on a zero divisor, with ZeroDivision |
| PhotoTables.Normalized | python/tablemaker/tabulator.py:104-107 | a normalised table carries the N_PHOTON efficiency flag |
| PhotoTables.ScalingDistributesOverAdding | python/tablemaker/tabulator.py:67-82 | scaling two tables and adding them equals adding them and scaling the sum |
| PhotoTables.DivideThenMultiplyRestores | python/tablemaker/tabulator.py:75-82 | dividing by k then multiplying by k restores the values and the weights |
| PhotoTables.NormalizedMeaning | python/tablemaker/tabulator.py:104-107 | normalising fails exactly for an unnormalised table of zero photons, leaves a normalised table as is, and otherwise divides by the photon count |
| PhotoTables.NormalizeIsIdempotent | python/tablemaker/tabulator.py:104-107 | normalising twice is normalising once |
| PhotoTables.PhotoTable.constructor | python/tablemaker/tabulator.py:59-65 | the table holds its arguments, with centres and widths computed per axis |
| PhotoTables.PhotoTable.Add | python/tablemaker/tabulator.py:67-73 | in-place addition reports Incompatibility, and leaves the table unchanged on error or holds the sum otherwise |
| PhotoTables.PhotoTable.Multiply | python/tablemaker/tabulator.py:78-82 | in-place multiplication leaves the scaled table: values by k, weights by k² |
| PhotoTables.PhotoTable.Divide | python/tablemaker/tabulator.py:75-76 | in-place division fails exactly on zero and leaves the table unchanged, otherwise holds the divided table |
| PhotoTables.PhotoTable.Normalize | python/tablemaker/tabulator.py:104-107 | in-place normalisation fails exactly as Normalized does, otherwise holds the normalised table |
| PhotoTables.BinCounts | python/tablemaker/tabulator.py:166 | one bin count per axis |
| PhotoTables.SearchSorted | python/tablemaker/tabulator.py:265 | for ascending edges, the insertion point is the number of edges strictly below the value |
| PhotoTables.SearchIndices | python/tablemaker/tabulator.py:265 | one raw index per coordinate, as many as the shorter of the coordinates and the axes, as `zip` pairs them |
| PhotoTables.Clamped | python/tablemaker/tabulator.py:266-268 | one clamped index per coordinate |
| PhotoTables.Tabulator.SetBins | python/tablemaker/tabulator.py:164-169 | the edges are stored; a negative dimension is an error that leaves the grids as they were, otherwise both grids are zeros of the bin shape |
| PhotoTables.Tabulator.BinIndices | python/tablemaker/tabulator.py:265-269 | the bin indices are the search indices clamped to the last bin |
| PhotoTables.ClampedIndicesAreBins | python/tablemaker/tabulator.py:265-268 | a clamped index is the raw index when that is a bin and otherwise the last bin |
| PhotoTables.BailOutNeverTaken | python/tablemaker/tabulator.py:266-320 | after clamping, the check that the photon has run off the table is never true, even for a distance beyond the last edge |
| PhotoTables.BeyondLastEdge | python/tablemaker/tabulator.py:265 | a value beyond the last ascending edge gets the insertion point past all edges |
| PhotoTables.BinIndicesOrBail | python/tablemaker/tabulator.py:318-321 | the corrected lookup bails out exactly when the raw distance or time index runs off the table, and otherwise returns the clamped indices |
| PhotoTables.BailsOutBeyondLastEdge | python/tablemaker/tabulator.py:318-321 | for ascending edges, it bails out exactly when the distance or time lies beyond the last edge |
| WavelengthGeneration.ClipRange | private/clsim/I3CLSimModuleHelper.cxx:93-107 | a tabulated spectrum keeps its own range; for a parametrised one each end is the tighter of the spectrum's and the medium's |
| WavelengthGeneration.ClipIsIntersection | private/clsim/I3CLSimModuleHelper.cxx:102-107 | a wavelength is in the clipped range exactly when it is in both the spectrum's and the medium's range |
| WavelengthGeneration.GridMeaning | private/clsim/I3CLSimModuleHelper.cxx:154-156 | the made-up binning has at least 2 points, a step below 10 nm, and spans the range exactly |
| WavelengthGeneration.GridInsideRange | private/clsim/I3CLSimModuleHelper.cxx:154-161 | the first grid point is the minimum, the last the maximum, and every point lies in between |
| WavelengthGeneration.GridSpectrum | private/clsim/I3CLSimModuleHelper.cxx:159-166 | one spectrum value per grid point |
| WavelengthGeneration.SampleGrid | private/clsim/I3CLSimModuleHelper.cxx:159-166 | the sampling loop fills exactly GridSpectrum |
| WavelengthGeneration.TableWavelengths | private/clsim/I3CLSimModuleHelper.cxx:125-135 | one wavelength per table entry |
| WavelengthGeneration.BiasedTable | private/clsim/I3CLSimModuleHelper.cxx:125-135 | one biased value per table entry |
| WavelengthGeneration.BiasTimesYield | private/clsim/I3CLSimModuleHelper.cxx:226-262 | one biased yield per table entry |
| WavelengthGeneration.SampleBiasedTable | private/clsim/I3CLSimModuleHelper.cxx:121-148 | the loop over the table fills exactly its wavelengths and bias × entry values |
| WavelengthGeneration.SampleBiasTable | private/clsim/I3CLSimModuleHelper.cxx:226-262 | the loop over the bias table fills exactly its wavelengths and bias × yield values |
| WavelengthGeneration.MakeWavelengthGenerator | private/clsim/I3CLSimModuleHelper.cxx:74-173 | the method returns the generator, or the fatal error, of the WavelengthGenerator specification |
| WavelengthGeneration.DeltaPeakIsConstant | private/clsim/I3CLSimModuleHelper.cxx:80-89 | a delta-peak spectrum gives a constant wavelength at the peak |
| WavelengthGeneration.WavelengthGeneratorFails | private/clsim/I3CLSimModuleHelper.cxx:109-115 | the construction fails exactly when the clipped range is not positive or the bias does not cover it, with the error naming which |
| WavelengthGeneration.GridGeneratorSpansRange | private/clsim/I3CLSimModuleHelper.cxx:150-172 | a parametrised spectrum gives an equally spaced generator of at least 2 points from the clipped minimum to the clipped maximum, steps below 10 nm, each value the bias times the spectrum at a wavelength the bias covers |
| WavelengthGeneration.TableGeneratorKeepsBinning | private/clsim/I3CLSimModuleHelper.cxx:119-149 | a tabulated spectrum keeps the table's binning (equal spacing exactly when the table has it), one value per entry, each the bias at the entry's wavelength times the entry |
| WavelengthGeneration.MakeCherenkovWavelengthGenerator | private/clsim/I3CLSimModuleHelper.cxx:175-300 | the method returns the generator, or the fatal error, of the CherenkovGenerator specification |
| WavelengthGeneration.NoDispersionGeneratorWhen | private/clsim/I3CLSimModuleHelper.cxx:190-268 | the closed-form no-dispersion generator is chosen exactly when the medium's range is valid and covered by the bias, the bias is not tabulated but constant within 1e-10 of one, and dispersion is switched off |
| WavelengthGeneration.CherenkovGridSpansMedium | private/clsim/I3CLSimModuleHelper.cxx:269-297 | otherwise, without a tabulated bias, the grid runs from the medium's minimum to its maximum wavelength, needs a native phase index when dispersive, and each value is the bias times the yield with or without dispersion |
| WavelengthGeneration.WorkgroupSize | private/clsim/I3CLSimModuleHelper.cxx:352-357 | the workgroup size is the device maximum, or the configured limit when that is smaller and not zero |
| WavelengthGeneration.WorkItems | private/clsim/I3CLSimModuleHelper.cxx:361-364 | the work items are a positive multiple of the workgroup size: the largest not above the approximate number, or one workgroup when that is smaller |
| WavelengthGeneration.WorkSizing | private/clsim/I3CLSimModuleHelper.cxx:352-364 | on a device with a positive maximum, the workgroup size is positive and the work items are a positive multiple of it |

## Left out

- Floating point: all arithmetic is exact real arithmetic. Rounding, NaN payloads, `EPSILON` tolerances other than the standard kernel's almost-horizontal test, and the float32 storage of the table maker are not modelled.
- Square roots are not computed. The root of the discriminant is a parameter with its defining predicate, and `calculate_intersections`, which fills the discriminant, s1 and s2 of a cylinder problem, is taken as an input (`CylinderCrossing`).
- Intersection.Alpha: the contract states alpha ≥ 0 but not that alpha = 0 exactly when A = B, because the nonlinear solver cannot close that fact reliably.
- `number_of_intersections` and `intersection_ratio_inside` are not defined in intersection.c. The model defines them from what intersection_test.c expects of them.
- The `getTiltZShift_IS_CONSTANT` branch of standard_clsim.c is not modelled, only the `#else` branch. The tilt shift and the directional correction factor are parameters.
- Debug `printf` output, OpenCL host code, device selection, kernel loading (`loadKernel`) and `initializeGeant4` are left out. So are the I3Module configuration, `I3ShadowedPhotonRemover`, and the kernel-side test drivers intersection_tests.c and hole_ice_tests.c.
- The Cherenkov yield physics (`CherenkovYieldDistribution`, the phase refractive index) is an input function of the medium. The fatal error when that index has no native implementation is modelled as `NoNativePhaseIndex`.
- `Axes::GetBinIndexFunction`, `GenerateBinningCode`, `GetCoordinateFunction` and `GetBoundsCheckFunction` generate OpenCL source text and are not part of this model.
- The table maker's FITS `save`/`load`, `generate_seed`, its random sampling, the `exp` weighting in `RecordPhoton`, the arccos and arctan coordinate geometry of `_getBinIndices` and `MakeParticle` are not part of this model. `Tabulator.BinIndices` takes the coordinates as given.
- `raise_if_incompatible`'s `TypeError` for an object of another class cannot occur between two `PhotoTable`s and is not modelled. NaN counts are modelled as the presence of a non-finite cell.
- Propagation.SortedChanges: the arrays of `MEDIUM_LAYERS` entries are modelled with the precondition that the change list fits, because the kernel writes past them otherwise.
- Propagation.FindCylindersInRange: the contract uses `fresh` and is not counted. Its result is stated fully.
- PhotoTables.PhotoTable.Add and PhotoTables.PhotoTable.Normalize: Python aliasing is not modelled. A table built without a header shares the module-level `empty_header` dict (tabulator.py:40, 59), and `__iadd__` (line 71) and `normalize` (line 107) update that shared dict, so such tables change each other's header. The `values` and `weights` arrays are stored by reference (lines 60-61) and updated in place (lines 69-70, 79-80), so the caller's arrays change too. The model gives every table its own copy, so its "nothing else changes" frames are stronger than the source's.
- WavelengthGeneration.NoDispersionYield: at a wavelength of 0 the C division gives infinity. Exact reals have no infinity, so the model gives 0 there.
- `NUMBER_OF_CYLINDERS` as a compile-time bound and the `__constant` address space do not change behaviour and are not modelled.
- The hole_ice_test.c expectations for cases 4 and 5 (lines 45-49, 73-77, 91-95) are not modelled. They contradict the shipped hole_ice.c, which returns at line 70, as well as the intended cases as written.

## Findings

| source | as written | input that shows it | evidently intended | confidence | as-written member | corrected member |
|---|---|---|---|---|---|---|
| resources/kernels/lib/hole_ice/hole_ice.c:70 | an unconditional `return` after case 3 keeps the uncorrected length for every other crossing pattern, so cases 4 and 5 are dead code | a step from x = 0 to 12 from the centre of a radius-10 hole, factor ½: 12 returned, 6 intended | cases 4 and 5 apply, with their fallbacks to cases 2 and 3 | high, not executed | HoleIce.ShippedSkipsCaseFour | HoleIce.CorrectedDistanceIntended |
| resources/kernels/lib/propagation_through_media/propagation_through_media.c:134-135 | both sort loops stop before index `number_of_medium_changes`, so the last change is never compared | changes at 0, 0.8, 0.3 stay unsorted | loop bounds `<=`, so all changes are sorted | high, not executed | ExchangeSorting.SortAsWrittenLeavesLastOutOfOrder | ExchangeSorting.ExchangeSortSorts |
| resources/kernels/lib/propagation_through_media/propagation_through_media.c:193 | the final absorption charge subtracts the whole distance propagated, already charged during the walk | one segment of 1 through lengths 1, budgets 3 and 10: 6 absorption lengths left instead of 7 | the absorption budget left is the way still to absorption, (toAbsorption − propagated)/absLen | medium, not executed | Propagation.FinishChargesWalkTwice | Propagation.FinishIntendedKeepsBudget |
| private/clsim/tabulator/Axes.cxx:29-32 | only the last shape entry is set, from the last axis's bin count; the others stay 1, so the total is the last axis's bin count | axes of 3 and 4 bins: 4 bins in total instead of 12 | the i-th entry is the i-th axis's bin count | high, not executed | Binning.AsWrittenCountsLastAxisOnly | Binning.Axes.constructor |
| python/tablemaker/tabulator.py:320 | the run-off-the-table check compares indices that `_getBinIndices` has already clamped, so it never fires | a photon at a distance beyond the last radial edge is recorded in the last bin | bail out when the raw index is past the last bin | medium, not executed | PhotoTables.BailOutNeverTaken | PhotoTables.BailsOutBeyondLastEdge |
