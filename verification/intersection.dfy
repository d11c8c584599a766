/** Segment-circle intersection in the horizontal plane.

    The segment runs from A to B, the circle has centre M and radius r.  A
    point of the line through A and B is A + s*(B - A); it lies on the circle
    when Alpha*s^2 + Beta*s + Gamma == 0.  A ratio strictly inside (0, 1) is a
    crossing within the segment; every other root is reported as the NaN
    sentinel, modelled here as `None`. */
module Intersection {
  import opened Wrappers
  import opened Quadratics

  /** The problem struct as the kernels fill it: A, B, M and the radius. */
  datatype Problem = Problem(aX: real, aY: real, bX: real, bY: real, mX: real, mY: real, r: real)

  function Sqr(a: real): real { a * a }

  function SquaredDistance(x0: real, y0: real, x1: real, y1: real): real {
    Sqr(x1 - x0) + Sqr(y1 - y0)
  }

  /** intersection_alpha: the squared length of AB. */
  function Alpha(p: Problem): (a: real)
    ensures a >= 0.0
  {
    Sqr(p.bY - p.aY) + Sqr(p.bX - p.aX)
  }

  /** intersection_beta, expanded as in the kernel. */
  function Beta(p: Problem): real {
    2.0 * p.aY * (p.bY - p.aY)
      + 2.0 * p.aX * (p.bX - p.aX)
      - 2.0 * p.mY * (p.bY - p.aY)
      - 2.0 * p.mX * (p.bX - p.aX)
  }

  /** intersection_gamma, expanded as in the kernel. */
  function Gamma(p: Problem): real {
    p.aY * p.aY - 2.0 * p.aY * p.mY + p.mY * p.mY
      - p.r * p.r + p.aX * p.aX - 2.0 * p.aX * p.mX + p.mX * p.mX
  }

  /** intersection_discriminant. */
  function Discriminant(p: Problem): real {
    Sqr(Beta(p)) - 4.0 * Alpha(p) * Gamma(p)
  }

  function Coefficients(p: Problem): (q: Quadratic)
    ensures q.a == Alpha(p) && q.b == Beta(p) && q.c == Gamma(p)
    ensures Disc(q) == Discriminant(p)
  {
    Quadratic(Alpha(p), Beta(p), Gamma(p))
  }

  /** What the expanded coefficients mean: Alpha is the squared length of AB,
      Beta twice the dot product of A - M with B - A, and Gamma the squared
      distance from A to M less the squared radius, so that Gamma < 0 exactly
      when A lies strictly inside the circle. */
  lemma CoefficientsMeaning(p: Problem)
    ensures Alpha(p) == SquaredDistance(p.aX, p.aY, p.bX, p.bY)
    ensures Beta(p) == 2.0 * ((p.aX - p.mX) * (p.bX - p.aX) + (p.aY - p.mY) * (p.bY - p.aY))
    ensures Gamma(p) == SquaredDistance(p.aX, p.aY, p.mX, p.mY) - p.r * p.r
    ensures Gamma(p) < 0.0 <==> SquaredDistance(p.aX, p.aY, p.mX, p.mY) < p.r * p.r
  {
  }

  /** `root` is what my_sqrt returns for the discriminant of the problem. */
  predicate SqrtOfDiscriminant(p: Problem, root: real) {
    IsSqrtOfDisc(Coefficients(p), root)
  }

  /** The point A + s*(B - A) of the line through A and B. */
  function Along(a: real, b: real, s: real): real { a + (b - a) * s }
  function PointX(p: Problem, s: real): real { Along(p.aX, p.bX, s) }
  function PointY(p: Problem, s: real): real { Along(p.aY, p.bY, s) }

  /** Expanding the squared distance of the line point from M, over plain
      reals: d = B - A, u = A - M, v = M - A and e = M - (A + s*d). */
  lemma ExpansionAlgebra(a: real, b: real, c: real, dx: real, dy: real, ux: real, uy: real,
                         vx: real, vy: real, r: real, s: real, ex: real, ey: real)
    requires a == dy * dy + dx * dx && b == 2.0 * (ux * dx + uy * dy)
    requires vx == -ux && vy == -uy && c == vx * vx + vy * vy - r * r
    requires ex == -(ux + dx * s) && ey == -(uy + dy * s)
    ensures EvalAt(a, b, c, s) == Sqr(ex) + Sqr(ey) - r * r
  {
    assert vx * vx == ux * ux && vy * vy == uy * uy;
    assert ex * ex == ux * ux + 2.0 * ux * (dx * s) + (dx * s) * (dx * s);
    assert ey * ey == uy * uy + 2.0 * uy * (dy * s) + (dy * s) * (dy * s);
    assert (dx * s) * (dx * s) == dx * dx * s * s && (dy * s) * (dy * s) == dy * dy * s * s;
  }

  /** The same in the coordinates of A, B and M. */
  lemma DistanceAlgebra(a: real, b: real, c: real, x0: real, y0: real, x1: real, y1: real,
                        mx: real, my: real, r: real, s: real, x: real, y: real)
    requires a == Sqr(y1 - y0) + Sqr(x1 - x0)
    requires b == 2.0 * ((x0 - mx) * (x1 - x0) + (y0 - my) * (y1 - y0))
    requires c == SquaredDistance(x0, y0, mx, my) - r * r
    requires x == Along(x0, x1, s) && y == Along(y0, y1, s)
    ensures Eval(Quadratic(a, b, c), s) == SquaredDistance(x, y, mx, my) - r * r
  {
    ExpansionAlgebra(a, b, c, x1 - x0, y1 - y0, x0 - mx, y0 - my, mx - x0, my - y0, r, s,
                     mx - x, my - y);
  }

  /** The quadratic measures the squared distance of the line point from M,
      less the squared radius. */
  lemma QuadraticIsDistance(p: Problem, s: real)
    ensures Eval(Coefficients(p), s)
         == SquaredDistance(PointX(p, s), PointY(p, s), p.mX, p.mY) - p.r * p.r
  {
    CoefficientsMeaning(p);
    DistanceAlgebra(Alpha(p), Beta(p), Gamma(p), p.aX, p.aY, p.bX, p.bY, p.mX, p.mY, p.r, s,
                    PointX(p, s), PointY(p, s));
  }

  /** intersection_s_for_lines: the root of the quadratic along the whole
      line; `sign` picks the smaller (-1) or the larger (+1) one. */
  function SForLines(p: Problem, sign: int, root: real): real
    requires Alpha(p) > 0.0
  {
    Root(Coefficients(p), sign, root)
  }

  function S1ForLines(p: Problem, root: real): real
    requires Alpha(p) > 0.0
  {
    SForLines(p, -1, root)
  }

  function S2ForLines(p: Problem, root: real): real
    requires Alpha(p) > 0.0
  {
    SForLines(p, 1, root)
  }

  /** The two line roots solve the quadratic, are ordered, coincide exactly
      at tangency. */
  lemma LineRoots(p: Problem, root: real)
    requires Alpha(p) > 0.0 && Discriminant(p) >= 0.0 && SqrtOfDiscriminant(p, root)
    ensures Eval(Coefficients(p), S1ForLines(p, root)) == 0.0
    ensures Eval(Coefficients(p), S2ForLines(p, root)) == 0.0
    ensures S1ForLines(p, root) <= S2ForLines(p, root)
    ensures S1ForLines(p, root) == S2ForLines(p, root) <==> Discriminant(p) == 0.0
  {
    var q := Coefficients(p);
    Roots(q, root);
    RootSolves(q, -1, root);
    RootSolves(q, 1, root);
  }

  /** intersection_s: the line root as a ratio of the segment when it lies
      strictly between A and B, the NaN sentinel otherwise.  A negative
      discriminant yields NaN from the square root, and a trajectory of
      length zero divides by zero; no comparison catches either. */
  function S(p: Problem, sign: int, root: real): (s: Option<real>)
    requires SqrtOfDiscriminant(p, root)
    ensures s.Some? <==>
      Alpha(p) > 0.0 && Discriminant(p) >= 0.0 && 0.0 < SForLines(p, sign, root) < 1.0
    ensures s.Some? ==> 0.0 < s.value < 1.0 && s.value == SForLines(p, sign, root)
  {
    if Alpha(p) == 0.0 || Discriminant(p) < 0.0 then None
    else
      var scale := SForLines(p, sign, root);
      if scale <= 0.0 || scale >= 1.0 then None else Some(scale)
  }

  function S1(p: Problem, root: real): Option<real>
    requires SqrtOfDiscriminant(p, root)
  {
    S(p, -1, root)
  }

  function S2(p: Problem, root: real): Option<real>
    requires SqrtOfDiscriminant(p, root)
  {
    S(p, 1, root)
  }

  /** NaN propagates through `a + (b - a) * s`. */
  function PointAt(a: real, b: real, s: Option<real>): Option<real> {
    if s.None? then None else Some(Along(a, b, s.value))
  }

  function X1(p: Problem, root: real): Option<real>
    requires SqrtOfDiscriminant(p, root)
  {
    PointAt(p.aX, p.bX, S1(p, root))
  }

  function X2(p: Problem, root: real): Option<real>
    requires SqrtOfDiscriminant(p, root)
  {
    PointAt(p.aX, p.bX, S2(p, root))
  }

  function Y1(p: Problem, root: real): Option<real>
    requires SqrtOfDiscriminant(p, root)
  {
    PointAt(p.aY, p.bY, S1(p, root))
  }

  function Y2(p: Problem, root: real): Option<real>
    requires SqrtOfDiscriminant(p, root)
  {
    PointAt(p.aY, p.bY, S2(p, root))
  }

  /** A crossing ratio, when defined, names a point of the circle. */
  lemma RatioOnCircle(p: Problem, sign: int, root: real)
    requires sign == -1 || sign == 1
    requires SqrtOfDiscriminant(p, root)
    ensures S(p, sign, root).Some? ==>
      var s := S(p, sign, root).value;
      SquaredDistance(PointX(p, s), PointY(p, s), p.mX, p.mY) == p.r * p.r
  {
    if S(p, sign, root).Some? {
      RootSolves(Coefficients(p), sign, root);
      QuadraticIsDistance(p, S(p, sign, root).value);
    }
  }

  /** Every crossing point the functions return lies on the circle, and the
      coordinates are defined together with their ratio. */
  lemma CrossingPointsOnCircle(p: Problem, root: real)
    requires SqrtOfDiscriminant(p, root)
    ensures X1(p, root).Some? <==> S1(p, root).Some?
    ensures Y1(p, root).Some? <==> S1(p, root).Some?
    ensures X2(p, root).Some? <==> S2(p, root).Some?
    ensures Y2(p, root).Some? <==> S2(p, root).Some?
    ensures X1(p, root).Some? ==>
      SquaredDistance(X1(p, root).value, Y1(p, root).value, p.mX, p.mY) == p.r * p.r
    ensures X2(p, root).Some? ==>
      SquaredDistance(X2(p, root).value, Y2(p, root).value, p.mX, p.mY) == p.r * p.r
  {
    CrossingPointOnCircle(p, -1, root);
    CrossingPointOnCircle(p, 1, root);
  }

  /** One of the two crossing points, picked by `sign`. */
  lemma CrossingPointOnCircle(p: Problem, sign: int, root: real)
    requires sign == -1 || sign == 1
    requires SqrtOfDiscriminant(p, root)
    ensures PointAt(p.aX, p.bX, S(p, sign, root)).Some? ==>
      SquaredDistance(PointAt(p.aX, p.bX, S(p, sign, root)).value,
                      PointAt(p.aY, p.bY, S(p, sign, root)).value, p.mX, p.mY) == p.r * p.r
  {
    var o := S(p, sign, root);
    if o.Some? {
      RatioOnCircle(p, sign, root);
      var s := o.value;
      assert PointAt(p.aX, p.bX, o).value == PointX(p, s);
      assert PointAt(p.aY, p.bY, o).value == PointY(p, s);
    }
  }

  /** intersecting_trajectory_starts_inside, evaluated left to right: with a
      negative discriminant the line roots are NaN, and with a trajectory of
      length zero they are NaN or infinite, so the comparisons fail. */
  predicate StartsInside(p: Problem, root: real)
    requires SqrtOfDiscriminant(p, root)
  {
    Alpha(p) > 0.0 && Discriminant(p) > 0.0
      && S1ForLines(p, root) <= 0.0 && S2ForLines(p, root) > 0.0
  }

  predicate StartsOutside(p: Problem, root: real)
    requires SqrtOfDiscriminant(p, root)
  {
    !StartsInside(p, root)
  }

  /** intersecting_trajectory_ends_inside, with the same NaN behaviour. */
  predicate EndsInside(p: Problem, root: real)
    requires SqrtOfDiscriminant(p, root)
  {
    Alpha(p) > 0.0 && Discriminant(p) > 0.0
      && S1ForLines(p, root) < 1.0 && S2ForLines(p, root) >= 1.0
  }

  /** For a trajectory of positive length, "starts inside" holds exactly when
      A lies strictly inside the circle, or lies on it while heading inwards
      (Beta < 0). */
  lemma StartsInsideIff(p: Problem, root: real)
    requires SqrtOfDiscriminant(p, root)
    requires Alpha(p) > 0.0
    ensures StartsInside(p, root) <==> Gamma(p) < 0.0 || (Gamma(p) == 0.0 && Beta(p) < 0.0)
    ensures StartsOutside(p, root) <==> Gamma(p) > 0.0 || (Gamma(p) == 0.0 && Beta(p) >= 0.0)
  {
    ZeroBetweenRoots(Coefficients(p), root);
  }

  /** For a trajectory of positive length, "ends inside" holds exactly when B
      lies strictly inside the circle, or lies on it while the segment
      arrives from inside. */
  lemma EndsInsideIff(p: Problem, root: real)
    requires SqrtOfDiscriminant(p, root)
    requires Alpha(p) > 0.0
    ensures var atB := SquaredDistance(p.bX, p.bY, p.mX, p.mY) - p.r * p.r;
      EndsInside(p, root) <==> atB < 0.0 || (atB == 0.0 && 2.0 * Alpha(p) + Beta(p) > 0.0)
  {
    QuadraticIsDistance(p, 1.0);
    OneBetweenRoots(Coefficients(p), root);
  }

  /** The distinct crossing ratios within the segment. */
  function CrossingRatios(p: Problem, root: real): set<real>
    requires SqrtOfDiscriminant(p, root)
  {
    (if S1(p, root).Some? then {S1(p, root).value} else {})
      + (if S2(p, root).Some? then {S2(p, root).value} else {})
  }

  /** number_of_intersections: the number of points at which the segment
      crosses or touches the circle; a tangent point counts once. */
  function NumberOfIntersections(p: Problem, root: real): (n: nat)
    requires SqrtOfDiscriminant(p, root)
    ensures n == |CrossingRatios(p, root)|
    ensures n <= 2
    ensures n == 0 <==> S1(p, root).None? && S2(p, root).None?
    ensures n == 2 <==> S1(p, root).Some? && S2(p, root).Some? && Discriminant(p) > 0.0
  {
    var one := if S1(p, root).Some? then 1 else 0;
    var two := if S2(p, root).Some? then 1 else 0;
    if Alpha(p) == 0.0 || Discriminant(p) < 0.0 then
      0
    else if Discriminant(p) == 0.0 then
      LineRoots(p, root);
      assert S1(p, root) == S2(p, root);
      one
    else
      LineRoots(p, root);
      assert one == 1 && two == 1 ==> S1(p, root).value < S2(p, root).value;
      one + two
  }

  function Min(a: real, b: real): real { if a <= b then a else b }
  function Max(a: real, b: real): real { if a >= b then a else b }

  /** intersection_ratio_inside: the fraction of the segment that runs inside
      the circle, the overlap of [0, 1] with the interval between the two
      line roots. */
  function RatioInside(p: Problem, root: real): (q: real)
    requires SqrtOfDiscriminant(p, root)
    ensures 0.0 <= q <= 1.0
    ensures Discriminant(p) <= 0.0 ==> q == 0.0
  {
    if Alpha(p) == 0.0 || Discriminant(p) <= 0.0 then 0.0
    else Max(0.0, Min(1.0, S2ForLines(p, root)) - Max(0.0, S1ForLines(p, root)))
  }

  /** The inside ratio in each configuration of defined crossings: a chord,
      an exit only, an entry only, the whole segment, or nothing. */
  lemma RatioInsideCases(p: Problem, root: real)
    requires SqrtOfDiscriminant(p, root)
    ensures S1(p, root).Some? && S2(p, root).Some? ==>
      RatioInside(p, root) == S2(p, root).value - S1(p, root).value
    ensures StartsInside(p, root) && S2(p, root).Some? ==> RatioInside(p, root) == S2(p, root).value
    ensures EndsInside(p, root) && S1(p, root).Some? ==> RatioInside(p, root) == 1.0 - S1(p, root).value
    ensures NumberOfIntersections(p, root) == 0 && StartsInside(p, root) ==> RatioInside(p, root) == 1.0
    ensures NumberOfIntersections(p, root) == 0 && StartsOutside(p, root) ==> RatioInside(p, root) == 0.0
  {
    if Alpha(p) > 0.0 && Discriminant(p) >= 0.0 {
      LineRoots(p, root);
    }
  }

  /** A segment that starts strictly inside the circle is classified as
      starting inside, and its entry ratio is the NaN sentinel. */
  lemma InsideStartIsClassified(p: Problem, root: real)
    requires SqrtOfDiscriminant(p, root)
    requires Alpha(p) > 0.0 && Gamma(p) < 0.0
    ensures StartsInside(p, root)
    ensures S1(p, root).None?
  {
    StartsInsideIff(p, root);
  }
}
