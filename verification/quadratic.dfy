/** The quadratic a*s^2 + b*s + c behind the segment-circle intersection,
    with its two roots (-b -/+ root)/(2a), where `root` is the square root of
    the discriminant as the kernels' square-root function returns it. */
module Quadratics {
  import opened Wrappers

  datatype Quadratic = Quadratic(a: real, b: real, c: real)

  function Eval(q: Quadratic, s: real): real {
    EvalAt(q.a, q.b, q.c, s)
  }

  function EvalAt(a: real, b: real, c: real, s: real): real {
    a * s * s + b * s + c
  }

  function Disc(q: Quadratic): real {
    q.b * q.b - 4.0 * q.a * q.c
  }

  /** `root` is what the square root returns for the discriminant.  Only a
      non-negative discriminant constrains it; a negative one yields NaN,
      which the callers treat separately.  The square root vanishes exactly
      at zero. */
  predicate IsSqrtOfDisc(q: Quadratic, root: real) {
    Disc(q) >= 0.0 ==> root >= 0.0 && root * root == Disc(q) && (root == 0.0 <==> Disc(q) == 0.0)
  }

  /** The root picked by `sign`: -1 for the smaller, +1 for the larger. */
  function Root(q: Quadratic, sign: int, root: real): real
    requires q.a > 0.0
  {
    (-q.b + sign as real * root) / 2.0 / q.a
  }

  /** (-b + sg*root)/(2a) solves the quadratic when root^2 is the discriminant. */
  lemma SolvesAlgebra(a: real, b: real, c: real, root: real, sg: real, s: real)
    requires a > 0.0 && sg * sg == 1.0 && root * root == b * b - 4.0 * a * c
    requires s == (-b + sg * root) / 2.0 / a
    ensures a * s * s + b * s + c == 0.0
  {
    var t := 2.0 * a * s;
    assert t == -b + sg * root;
    assert t * t == b * b - 2.0 * b * sg * root + sg * sg * (root * root);
    assert t * t == 2.0 * b * b - 4.0 * a * c - 2.0 * b * sg * root;
    assert 4.0 * a * (a * s * s + b * s + c) == t * t + 2.0 * b * t + 4.0 * a * c;
  }

  /** Both roots solve the quadratic. */
  lemma RootSolves(q: Quadratic, sign: int, root: real)
    requires sign == -1 || sign == 1
    requires q.a > 0.0 && Disc(q) >= 0.0 && IsSqrtOfDisc(q, root)
    ensures Eval(q, Root(q, sign, root)) == 0.0
  {
    SolvesAlgebra(q.a, q.b, q.c, root, sign as real, Root(q, sign, root));
  }

  /** Vieta's formulas and the order of the two roots, over plain reals. */
  lemma RootsAlgebra(a: real, b: real, c: real, root: real, s1: real, s2: real)
    requires a > 0.0 && root >= 0.0 && root * root == b * b - 4.0 * a * c
    requires s1 == (-b - root) / 2.0 / a && s2 == (-b + root) / 2.0 / a
    ensures s1 <= s2
    ensures s1 == s2 <==> root == 0.0
    ensures a * (s1 + s2) == -b
    ensures a * (s1 * s2) == c
  {
    assert 2.0 * a * s1 == -b - root;
    assert 2.0 * a * s2 == -b + root;
    assert 2.0 * a * (s2 - s1) == 2.0 * root;
    assert (2.0 * a * s1) * (2.0 * a * s2) == b * b - root * root;
    assert 4.0 * a * a * (s1 * s2) == 4.0 * a * c;
  }

  /** The two roots are ordered, coincide exactly when the discriminant is
      zero, and satisfy Vieta's formulas. */
  lemma Roots(q: Quadratic, root: real)
    requires q.a > 0.0 && Disc(q) >= 0.0 && IsSqrtOfDisc(q, root)
    ensures Root(q, -1, root) <= Root(q, 1, root)
    ensures Root(q, -1, root) == Root(q, 1, root) <==> Disc(q) == 0.0
    ensures q.a * (Root(q, -1, root) + Root(q, 1, root)) == -q.b
    ensures q.a * (Root(q, -1, root) * Root(q, 1, root)) == q.c
  {
    RootsAlgebra(q.a, q.b, q.c, root, Root(q, -1, root), Root(q, 1, root));
  }

  /** Sign pattern of two ordered numbers from their sum and product:
      s1 <= 0 < s2 exactly when c < 0, or c == 0 and b < 0. */
  lemma RootSigns(a: real, b: real, c: real, s1: real, s2: real)
    requires a > 0.0 && s1 <= s2 && a * (s1 + s2) == -b && a * (s1 * s2) == c
    ensures (s1 < s2 && s1 <= 0.0 && s2 > 0.0) <==> c < 0.0 || (c == 0.0 && b < 0.0)
  {
    assert s1 >= 0.0 ==> s1 * s2 >= 0.0;
    assert s2 <= 0.0 ==> s1 * s2 >= 0.0;
    assert s1 < 0.0 && s2 > 0.0 ==> s1 * s2 < 0.0;
    assert s1 == 0.0 ==> a * s2 == -b;
    assert s2 == 0.0 ==> a * s1 == -b;
    assert s1 * s2 == 0.0 ==> s1 == 0.0 || s2 == 0.0;
  }

  /** Zero lies in the half-open interval (smaller root, larger root]
      exactly when c < 0, or c == 0 and b < 0. */
  lemma ZeroBetweenRoots(q: Quadratic, root: real)
    requires q.a > 0.0 && IsSqrtOfDisc(q, root)
    ensures (Disc(q) > 0.0 && Root(q, -1, root) <= 0.0 && Root(q, 1, root) > 0.0)
      <==> q.c < 0.0 || (q.c == 0.0 && q.b < 0.0)
  {
    if Disc(q) >= 0.0 {
      Roots(q, root);
      RootSigns(q.a, q.b, q.c, Root(q, -1, root), Root(q, 1, root));
    } else {
      assert 4.0 * q.a * q.c > q.b * q.b >= 0.0;
    }
  }

  /** The quadratic mirrored around s = 1: u = 1 - s. */
  function Mirror(q: Quadratic): Quadratic {
    Quadratic(q.a, -(2.0 * q.a + q.b), q.a + q.b + q.c)
  }

  /** One lies in the half-open interval [smaller root, larger root) exactly
      when the value at one is negative, or zero while the quadratic rises
      through it. */
  lemma OneBetweenRoots(q: Quadratic, root: real)
    requires q.a > 0.0 && IsSqrtOfDisc(q, root)
    ensures (Disc(q) > 0.0 && Root(q, -1, root) < 1.0 && Root(q, 1, root) >= 1.0)
      <==> Eval(q, 1.0) < 0.0 || (Eval(q, 1.0) == 0.0 && 2.0 * q.a + q.b > 0.0)
  {
    var m := Mirror(q);
    assert Disc(m) == Disc(q);
    if Disc(q) >= 0.0 {
      Roots(q, root);
      var s1, s2 := Root(q, -1, root), Root(q, 1, root);
      var u1, u2 := 1.0 - s2, 1.0 - s1;
      assert q.a * (u1 + u2) == 2.0 * q.a + q.b;
      assert q.a * (u1 * u2) == q.a - q.a * (s1 + s2) + q.a * (s1 * s2);
      RootSigns(m.a, m.b, m.c, u1, u2);
    } else {
      assert 4.0 * m.a * m.c > m.b * m.b >= 0.0;
    }
  }
}
