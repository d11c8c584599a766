/** The four configurations of the intersection tests (a tangent, a chord,
    a miss and a start inside the circle).  Each is evaluated in two steps:
    the coefficients of the concrete problem, then the kernel functions of
    any problem with those coefficients, so that the solver never multiplies
    unevaluated coefficient terms. */
module IntersectionExamples {
  import opened Wrappers
  import opened Quadratics
  import opened Intersection

  function Tangent(): Problem { Problem(0.0, 0.5, 5.0, 0.5, 1.0, 1.0, 0.5) }
  function TwoCrossings(): Problem { Problem(0.0, 1.0, 5.0, 1.0, 1.0, 1.0, 0.5) }
  function Missing(): Problem { Problem(0.0, 0.5, 5.0, 0.5, 1.0, 1.0, 0.2) }
  function FromInside(): Problem { Problem(1.0, 1.0, 5.0, 1.0, 1.0, 1.0, 1.0) }

  lemma CoefficientsOfExamples(p: Problem)
    ensures p == Tangent() ==> Coefficients(p) == Quadratic(25.0, -10.0, 1.0)
    ensures p == TwoCrossings() ==> Coefficients(p) == Quadratic(25.0, -10.0, 0.75)
    ensures p == Missing() ==> Coefficients(p) == Quadratic(25.0, -10.0, 1.21)
    ensures p == FromInside() ==> Coefficients(p) == Quadratic(16.0, 0.0, -1.0)
  {
  }

  /** A segment touching the circle: one crossing counted, ratio 0.2 twice,
      nothing inside. */
  lemma TangentRatios(p: Problem)
    requires Coefficients(p) == Quadratic(25.0, -10.0, 1.0)
    requires p.aX == 0.0 && p.aY == 0.5 && p.bX == 5.0 && p.bY == 0.5
    ensures SqrtOfDiscriminant(p, 0.0)
    ensures S1(p, 0.0) == Some(0.2) && S2(p, 0.0) == Some(0.2)
    ensures NumberOfIntersections(p, 0.0) == 1
    ensures !StartsInside(p, 0.0) && RatioInside(p, 0.0) == 0.0
    ensures X1(p, 0.0) == Some(1.0) && Y1(p, 0.0) == Some(0.5)
    ensures X2(p, 0.0) == Some(1.0) && Y2(p, 0.0) == Some(0.5)
  {
  }

  lemma TangentExample(p: Problem)
    requires p == Tangent()
    ensures SqrtOfDiscriminant(p, 0.0)
    ensures S1(p, 0.0) == Some(0.2) && S2(p, 0.0) == Some(0.2)
    ensures X1(p, 0.0) == Some(1.0) && Y1(p, 0.0) == Some(0.5)
    ensures X2(p, 0.0) == Some(1.0) && Y2(p, 0.0) == Some(0.5)
    ensures NumberOfIntersections(p, 0.0) == 1
    ensures !StartsInside(p, 0.0) && RatioInside(p, 0.0) == 0.0
  {
    CoefficientsOfExamples(p);
    TangentRatios(p);
  }

  /** A chord: crossings at ratios 0.1 and 0.3, a fifth of the segment inside. */
  lemma ChordRatios(p: Problem)
    requires Coefficients(p) == Quadratic(25.0, -10.0, 0.75)
    requires p.aX == 0.0 && p.aY == 1.0 && p.bX == 5.0 && p.bY == 1.0
    ensures SqrtOfDiscriminant(p, 5.0)
    ensures S1(p, 5.0) == Some(0.1) && S2(p, 5.0) == Some(0.3)
    ensures NumberOfIntersections(p, 5.0) == 2
    ensures !StartsInside(p, 5.0) && RatioInside(p, 5.0) == 0.2
    ensures X1(p, 5.0) == Some(0.5) && Y1(p, 5.0) == Some(1.0)
    ensures X2(p, 5.0) == Some(1.5) && Y2(p, 5.0) == Some(1.0)
  {
  }

  lemma TwoCrossingsExample(p: Problem)
    requires p == TwoCrossings()
    ensures SqrtOfDiscriminant(p, 5.0)
    ensures S1(p, 5.0) == Some(0.1) && S2(p, 5.0) == Some(0.3)
    ensures X1(p, 5.0) == Some(0.5) && Y1(p, 5.0) == Some(1.0)
    ensures X2(p, 5.0) == Some(1.5) && Y2(p, 5.0) == Some(1.0)
    ensures NumberOfIntersections(p, 5.0) == 2
    ensures !StartsInside(p, 5.0)
    ensures 0.19 < RatioInside(p, 5.0) < 0.21
  {
    CoefficientsOfExamples(p);
    ChordRatios(p);
  }

  /** A miss: the discriminant is negative, so whatever the square root
      returns, every ratio and point is the sentinel. */
  lemma MissRatios(p: Problem, root: real)
    requires Coefficients(p) == Quadratic(25.0, -10.0, 1.21)
    ensures Discriminant(p) < 0.0 && SqrtOfDiscriminant(p, root)
    ensures S1(p, root).None? && S2(p, root).None?
    ensures NumberOfIntersections(p, root) == 0
    ensures !StartsInside(p, root) && RatioInside(p, root) == 0.0
  {
  }

  lemma MissingExample(p: Problem, root: real)
    requires p == Missing()
    ensures SqrtOfDiscriminant(p, root)
    ensures X1(p, root).None? && Y1(p, root).None?
    ensures X2(p, root).None? && Y2(p, root).None?
    ensures S1(p, root).None? && S2(p, root).None?
    ensures NumberOfIntersections(p, root) == 0
    ensures !StartsInside(p, root) && RatioInside(p, root) == 0.0
  {
    CoefficientsOfExamples(p);
    MissRatios(p, root);
  }

  /** A segment starting at the centre: no entry, an exit at a quarter of
      the segment, which is also the part inside. */
  lemma InsideRatios(p: Problem)
    requires Coefficients(p) == Quadratic(16.0, 0.0, -1.0)
    requires p.aX == 1.0 && p.aY == 1.0 && p.bX == 5.0 && p.bY == 1.0
    ensures SqrtOfDiscriminant(p, 8.0)
    ensures S1(p, 8.0).None? && S2(p, 8.0) == Some(0.25)
    ensures NumberOfIntersections(p, 8.0) == 1
    ensures StartsInside(p, 8.0) && RatioInside(p, 8.0) == 0.25
    ensures X1(p, 8.0).None? && Y1(p, 8.0).None?
    ensures X2(p, 8.0) == Some(2.0) && Y2(p, 8.0) == Some(1.0)
  {
  }

  lemma FromInsideExample(p: Problem)
    requires p == FromInside()
    ensures SqrtOfDiscriminant(p, 8.0)
    ensures S1(p, 8.0).None? && S2(p, 8.0) == Some(0.25)
    ensures X1(p, 8.0).None? && Y1(p, 8.0).None?
    ensures X2(p, 8.0) == Some(2.0) && Y2(p, 8.0) == Some(1.0)
    ensures NumberOfIntersections(p, 8.0) == 1
    ensures StartsInside(p, 8.0) && RatioInside(p, 8.0) == 0.25
  {
    CoefficientsOfExamples(p);
    InsideRatios(p);
  }
}
