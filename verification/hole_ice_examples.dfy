/** The hole-ice test configurations: a cylinder of radius 10 around the
    origin and trajectories along the x axis.  The tests check the
    correction, the corrected length minus the trajectory length. */
module HoleIceExamples {
  import opened Wrappers
  import opened Quadratics
  import opened Intersection
  import opened HoleIce

  function Along(ax: real, bx: real): Problem { Problem(ax, 0.0, bx, 0.0, 0.0, 0.0, 10.0) }

  lemma CoefficientsAlong(p: Problem)
    ensures p == Along(15.0, 20.0) ==> Coefficients(p) == Quadratic(25.0, 150.0, 125.0)
    ensures p == Along(-5.0, 5.0) ==> Coefficients(p) == Quadratic(100.0, -100.0, -75.0)
    ensures p == Along(-15.0, 0.0) ==> Coefficients(p) == Quadratic(225.0, -450.0, 125.0)
    ensures p == Along(0.0, 12.0) ==> Coefficients(p) == Quadratic(144.0, 0.0, -100.0)
    ensures p == Along(-20.0, 20.0) ==> Coefficients(p) == Quadratic(1600.0, -1600.0, 300.0)
  {
  }

  /** Both line roots before A: case 1. */
  lemma OutsideCrossing(p: Problem)
    requires Coefficients(p) == Quadratic(25.0, 150.0, 125.0)
    ensures SqrtOfDiscriminant(p, 100.0)
    ensures Classify(p, 100.0) == Crossing(false, 0, 0.0, None)
    ensures CorrectedDistance(5.0, 0.0, p, 100.0) == Success(5.0)
    ensures CorrectedDistance(5.0, 0.5, p, 100.0) == Success(5.0)
  {
  }

  /** The segment lies within the circle: case 2. */
  lemma WithinCrossing(p: Problem)
    requires Coefficients(p) == Quadratic(100.0, -100.0, -75.0)
    ensures SqrtOfDiscriminant(p, 200.0)
    ensures Classify(p, 200.0) == Crossing(true, 0, 1.0, None)
    ensures CorrectedDistance(10.0, 0.0, p, 200.0) == Success(10.0 - 10.0)
    ensures CorrectedDistance(10.0, 0.5, p, 200.0) == Success(10.0 - 5.0)
  {
  }

  /** An entry at a third of the segment: case 3. */
  lemma EnteringCrossing(p: Problem)
    requires Coefficients(p) == Quadratic(225.0, -450.0, 125.0)
    ensures SqrtOfDiscriminant(p, 300.0)
    ensures Classify(p, 300.0) == Crossing(false, 1, 2.0 / 3.0, Some(1.0 / 3.0))
    ensures CorrectedDistance(15.0, 0.0, p, 300.0) == Success(15.0 - 10.0)
    ensures CorrectedDistance(15.0, 0.5, p, 300.0) == Success(15.0 - 5.0)
  {
  }

  /** An exit at five sixths of the segment: case 4. */
  lemma LeavingCrossing(p: Problem)
    requires Coefficients(p) == Quadratic(144.0, 0.0, -100.0)
    ensures SqrtOfDiscriminant(p, 240.0)
    ensures Classify(p, 240.0) == Crossing(true, 1, 5.0 / 6.0, None)
    ensures CorrectedDistance(12.0, 0.5, p, 240.0) == Success(12.0 - 6.0)
    ensures CorrectedDistanceShipped(12.0, 0.5, Classify(p, 240.0)) == 12.0
  {
  }

  /** Entry at a quarter, exit at three quarters: case 5. */
  lemma PassingCrossing(p: Problem)
    requires Coefficients(p) == Quadratic(1600.0, -1600.0, 300.0)
    ensures SqrtOfDiscriminant(p, 800.0)
    ensures Classify(p, 800.0) == Crossing(false, 2, 0.5, Some(0.25))
    ensures CorrectedDistance(40.0, 0.5, p, 800.0) == Success(40.0 - 10.0)
    ensures CorrectedDistanceShipped(40.0, 0.5, Classify(p, 800.0)) == 40.0
  {
  }

  /** hole_ice_test.c, case 1: no correction for either factor. */
  lemma OutsideExample(p: Problem)
    requires p == Along(15.0, 20.0)
    ensures SqrtOfDiscriminant(p, 100.0)
    ensures CorrectedDistance(5.0, 0.0, p, 100.0) == Success(5.0)
    ensures CorrectedDistance(5.0, 0.5, p, 100.0) == Success(5.0)
  {
    CoefficientsAlong(p);
    OutsideCrossing(p);
  }

  /** Case 2: corrections -10 and -5 for the factors 0 and 0.5. */
  lemma WithinExample(p: Problem)
    requires p == Along(-5.0, 5.0)
    ensures SqrtOfDiscriminant(p, 200.0)
    ensures CorrectedDistance(10.0, 0.0, p, 200.0) == Success(10.0 - 10.0)
    ensures CorrectedDistance(10.0, 0.5, p, 200.0) == Success(10.0 - 5.0)
  {
    CoefficientsAlong(p);
    WithinCrossing(p);
  }

  /** Case 3: corrections -10 and -5 for the factors 0 and 0.5. */
  lemma EnteringExample(p: Problem)
    requires p == Along(-15.0, 0.0)
    ensures SqrtOfDiscriminant(p, 300.0)
    ensures CorrectedDistance(15.0, 0.0, p, 300.0) == Success(15.0 - 10.0)
    ensures CorrectedDistance(15.0, 0.5, p, 300.0) == Success(15.0 - 5.0)
  {
    CoefficientsAlong(p);
    EnteringCrossing(p);
  }

  /** Case 4 falls back to case 2: correction -6, which the shipped
      function, returning early, does not produce. */
  lemma LeavingExample(p: Problem)
    requires p == Along(0.0, 12.0)
    ensures SqrtOfDiscriminant(p, 240.0)
    ensures CorrectedDistance(12.0, 0.5, p, 240.0) == Success(12.0 - 6.0)
    ensures CorrectedDistanceShipped(12.0, 0.5, Classify(p, 240.0)) == 12.0
  {
    CoefficientsAlong(p);
    LeavingCrossing(p);
  }

  /** Case 5 falls back to case 3: correction -10, again not produced by the
      shipped function. */
  lemma PassingExample(p: Problem)
    requires p == Along(-20.0, 20.0)
    ensures SqrtOfDiscriminant(p, 800.0)
    ensures CorrectedDistance(40.0, 0.5, p, 800.0) == Success(40.0 - 10.0)
    ensures CorrectedDistanceShipped(40.0, 0.5, Classify(p, 800.0)) == 40.0
  {
    CoefficientsAlong(p);
    PassingCrossing(p);
  }
}
