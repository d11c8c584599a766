/** hole_ice_corrected_distance: the length a photon travels when part of its
    trajectory runs through a hole-ice cylinder, whose interaction lengths are
    the bulk ice's times `factor`.  The six cases are keyed on the number of
    crossings of the cylinder's circle and on whether the trajectory starts
    inside it. */
module HoleIce {
  import opened Wrappers
  import opened Intersection

  /** What the correction reads of the intersection problem. */
  datatype Crossing = Crossing(startsInside: bool, count: nat, ratioInside: real, s1: Option<real>)

  /** The classification of a problem by the intersection functions. */
  function Classify(p: Problem, root: real): (c: Crossing)
    requires SqrtOfDiscriminant(p, root)
    ensures c.count <= 2 && 0.0 <= c.ratioInside <= 1.0
    ensures c.s1.Some? ==> 0.0 < c.s1.value < 1.0
    ensures c.count == 2 ==> c.s1.Some?
  {
    Crossing(StartsInside(p, root), NumberOfIntersections(p, root), RatioInside(p, root), S1(p, root))
  }

  /** A trajectory with two crossings has its entry strictly after A, so it
      never starts inside: case 6 cannot arise from a single cylinder. */
  lemma TwoCrossingsStartOutside(p: Problem, root: real)
    requires SqrtOfDiscriminant(p, root)
    ensures Classify(p, root).count == 2 ==> !Classify(p, root).startsInside
  {
  }

  /** Case 1: no crossing, starting outside. */
  predicate Outside(c: Crossing) { c.count == 0 && !c.startsInside }
  /** Case 2: no crossing, starting inside. */
  predicate Within(c: Crossing) { c.count == 0 && c.startsInside }
  /** Case 3: one crossing, starting outside. */
  predicate Entering(c: Crossing) { c.count == 1 && !c.startsInside }
  /** Case 4: one crossing, starting inside. */
  predicate Leaving(c: Crossing) { c.count == 1 && c.startsInside }
  /** Case 5: two crossings, starting outside. */
  predicate Passing(c: Crossing) { c.count == 2 && !c.startsInside }

  /** The length inside the hole ice, hole_ice.c:44. */
  function LengthInside(length: real, c: Crossing): real {
    length * c.ratioInside
  }

  /** The function as shipped: after case 3 it returns the length unchanged,
      so cases 4 to 6 are never reached and it never yields NaN. */
  function CorrectedDistanceShipped(length: real, factor: real, c: Crossing): (d: real)
    ensures !Within(c) && !Entering(c) ==> d == length
  {
    if Outside(c) then length
    else if Within(c) then factor * length
    else if Entering(c) then length + (factor - 1.0) * LengthInside(length, c)
    else length
  }

  /** YB of case 5: the part of the trajectory after the entry. */
  function RestAfterEntry(length: real, c: Crossing): real
    requires c.s1.Some?
  {
    (1.0 - c.s1.value) * length
  }

  /** Case 4: the trajectory shortened by the hole ice when the scaled
      trajectory reaches past the exit, otherwise case 2. */
  function LeavingDistance(length: real, factor: real, inside: real): Result<real, CorrectionError> {
    if factor * length > inside then
      if factor == 0.0 then Failure(ZeroFactor)
      else Success(length + (1.0 - 1.0 / factor) * inside)
    else Success(factor * length)
  }

  /** Case 5: the trajectory shortened when the scaled part after the entry
      reaches past the exit, otherwise case 3; a NaN entry ratio fails the
      comparison, as in C. */
  function PassingDistance(length: real, factor: real, c: Crossing, inside: real): Result<real, CorrectionError> {
    if c.s1.Some? && factor * RestAfterEntry(length, c) > inside then
      if factor == 0.0 then Failure(ZeroFactor)
      else Success(length + (1.0 - 1.0 / factor) * inside)
    else Success(length + (factor - 1.0) * inside)
  }

  /** Why the intended function yields NaN: case 6, a combination the table
      does not list, or an infinite 1/factor when factor is zero. */
  datatype CorrectionError = CaseSixReached | UnhandledCase | ZeroFactor

  /** The function without the early return: cases 4 and 5 compare the
      scaled trajectory with the part inside and fall back to cases 2 and 3
      when it is too short. */
  function CorrectedDistanceIntended(length: real, factor: real, c: Crossing): (d: Result<real, CorrectionError>)
    ensures d == Failure(CaseSixReached) <==> c.count == 2 && c.startsInside
    ensures d == Failure(UnhandledCase) <==> c.count > 2
    ensures d == Failure(ZeroFactor) ==> factor == 0.0 && (Leaving(c) || Passing(c))
    ensures factor != 0.0 && c.count <= 2 && !(c.count == 2 && c.startsInside) ==> d.Success?
  {
    var inside := LengthInside(length, c);
    if Outside(c) then Success(length)
    else if Within(c) then Success(factor * length)
    else if Entering(c) then Success(length + (factor - 1.0) * inside)
    else if Leaving(c) then LeavingDistance(length, factor, inside)
    else if Passing(c) then PassingDistance(length, factor, c, inside)
    else if c.count == 2 && c.startsInside then Failure(CaseSixReached)
    else Failure(UnhandledCase)
  }

  /** The shipped and the intended function agree on cases 1 to 3, and the
      shipped one returns the length unchanged everywhere else. */
  lemma ShippedAgreesOnFirstCases(length: real, factor: real, c: Crossing)
    ensures Outside(c) || Within(c) || Entering(c) ==>
      CorrectedDistanceIntended(length, factor, c) == Success(CorrectedDistanceShipped(length, factor, c))
    ensures Outside(c) ==> CorrectedDistanceShipped(length, factor, c) == length
    ensures Within(c) ==> CorrectedDistanceShipped(length, factor, c) == factor * length
    ensures Entering(c) ==>
      CorrectedDistanceShipped(length, factor, c) == length + (factor - 1.0) * length * c.ratioInside
  {
  }

  /** The shipped function differs from the intended one in case 4: with a
      factor of one half, a length of 12 of which 10 lie inside, the intended
      fallback shortens the trajectory to 6 while the shipped one keeps 12. */
  lemma ShippedSkipsCaseFour()
    ensures var c := Crossing(true, 1, 10.0 / 12.0, None);
      CorrectedDistanceShipped(12.0, 0.5, c) == 12.0
      && CorrectedDistanceIntended(12.0, 0.5, c) == Success(6.0)
  {
  }

  /** Case 4 meets its fallback: where the scaled trajectory ends exactly at
      the exit, f L == L_in, the shortened length equals case 2's f L. */
  lemma LeavingFallbackIsContinuous(length: real, factor: real, c: Crossing)
    requires Leaving(c) && factor != 0.0 && factor * length == LengthInside(length, c)
    ensures length + (1.0 - 1.0 / factor) * LengthInside(length, c) == factor * length
    ensures CorrectedDistanceIntended(length, factor, c) == Success(factor * length)
  {
    var inside := LengthInside(length, c);
    assert (1.0 / factor) * inside == (1.0 / factor) * (factor * length);
    assert (1.0 / factor) * (factor * length) == length;
  }

  /** Case 5 does not meet its fallback: with a factor of one half, a length
      of 10 entered at 0.2 and 4 inside, the scaled rest ends exactly at the
      exit, where the formula gives 6 and the case-3 fallback 8. */
  lemma PassingFallbackJumps()
    ensures var c := Crossing(false, 2, 0.4, Some(0.2));
      0.5 * ((1.0 - 0.2) * 10.0) == LengthInside(10.0, c)
      && 10.0 + (1.0 - 1.0 / 0.5) * LengthInside(10.0, c) == 6.0
      && CorrectedDistanceIntended(10.0, 0.5, c) == Success(8.0)
  {
  }

  /** Scaling the trajectory by k > 0 keeps its crossings and scales the
      corrected length by k, or fails in the same way. */
  lemma CorrectionScales(length: real, factor: real, c: Crossing, k: real)
    requires k > 0.0
    ensures var d := CorrectedDistanceIntended(length, factor, c);
      var e := CorrectedDistanceIntended(k * length, factor, c);
      e.Success? == d.Success? && (d.Success? ==> e.value == k * d.value)
      && (d.Failure? ==> e == d)
  {
    if Within(c) {
      ProductScales(k, factor, length);
    } else if Entering(c) {
      InsideScales(length, c, k);
      LinearScales(k, length, factor - 1.0, LengthInside(length, c));
    } else if Leaving(c) {
      LeavingScales(length, factor, c, k);
    } else if Passing(c) {
      PassingScales(length, factor, c, k);
    }
  }

  lemma LeavingScales(length: real, factor: real, c: Crossing, k: real)
    requires k > 0.0 && Leaving(c)
    ensures var d := CorrectedDistanceIntended(length, factor, c);
      var e := CorrectedDistanceIntended(k * length, factor, c);
      e.Success? == d.Success? && (d.Success? ==> e.value == k * d.value)
      && (d.Failure? ==> e == d)
  {
    var inside := LengthInside(length, c);
    InsideScales(length, c, k);
    ProductScales(k, factor, length);
    ScaleKeepsOrder(k, factor * length, inside);
    if factor != 0.0 {
      LinearScales(k, length, 1.0 - 1.0 / factor, inside);
    }
  }

  lemma PassingScales(length: real, factor: real, c: Crossing, k: real)
    requires k > 0.0 && Passing(c)
    ensures var d := CorrectedDistanceIntended(length, factor, c);
      var e := CorrectedDistanceIntended(k * length, factor, c);
      e.Success? == d.Success? && (d.Success? ==> e.value == k * d.value)
      && (d.Failure? ==> e == d)
  {
    var inside := LengthInside(length, c);
    InsideScales(length, c, k);
    if c.s1.Some? {
      RestScales(length, factor, c, inside, k);
    }
    LinearScales(k, length, factor - 1.0, inside);
    if factor != 0.0 {
      LinearScales(k, length, 1.0 - 1.0 / factor, inside);
    }
  }

  /** Case 5's comparison of the scaled rest with the part inside does not
      change when both are scaled by k > 0. */
  lemma RestScales(length: real, factor: real, c: Crossing, inside: real, k: real)
    requires k > 0.0 && c.s1.Some?
    ensures factor * RestAfterEntry(k * length, c) > k * inside
        <==> factor * RestAfterEntry(length, c) > inside
  {
    var share := 1.0 - c.s1.value;
    ProductScales(k, share, length);
    ProductScales(k, factor, share * length);
    ScaleKeepsOrder(k, factor * (share * length), inside);
  }

  lemma InsideScales(length: real, c: Crossing, k: real)
    ensures LengthInside(k * length, c) == k * LengthInside(length, c)
  {
  }

  lemma ProductScales(k: real, f: real, x: real)
    ensures f * (k * x) == k * (f * x)
  {
  }

  lemma LinearScales(k: real, length: real, w: real, inside: real)
    ensures k * length + w * (k * inside) == k * (length + w * inside)
  {
  }

  /** Multiplying both sides by k > 0 keeps a strict order, both ways. */
  lemma ScaleKeepsOrder(k: real, a: real, b: real)
    requires k > 0.0
    ensures k * a > k * b <==> a > b
  {
    assert k * a - k * b == k * (a - b);
    if a > b {
      assert k * (a - b) > 0.0;
    } else {
      assert k * (b - a) >= 0.0;
    }
  }

  /** An interaction-length factor of one leaves every trajectory as it is. */
  lemma UnitFactorIsNeutral(length: real, c: Crossing)
    ensures CorrectedDistanceShipped(length, 1.0, c) == length
    ensures CorrectedDistanceIntended(length, 1.0, c).Success? ==>
      CorrectedDistanceIntended(length, 1.0, c).value == length
  {
  }

  /** The part inside lies between zero and the whole length. */
  lemma InsideWithin(length: real, c: Crossing)
    requires length >= 0.0 && 0.0 <= c.ratioInside <= 1.0
    ensures 0.0 <= LengthInside(length, c) <= length
  {
    ShareWithin(c.ratioInside, length);
    assert LengthInside(length, c) == c.ratioInside * length;
  }

  /** A positive factor and a non-negative length within which the part
      inside and the entry ratio lie give a non-negative corrected length. */
  lemma CorrectedDistanceNonNegative(length: real, factor: real, c: Crossing)
    requires factor > 0.0 && length >= 0.0
    requires 0.0 <= c.ratioInside <= 1.0
    requires c.s1.Some? ==> 0.0 <= c.s1.value <= 1.0
    ensures CorrectedDistanceShipped(length, factor, c) >= 0.0
    ensures CorrectedDistanceIntended(length, factor, c).Success? ==>
      CorrectedDistanceIntended(length, factor, c).value >= 0.0
  {
    var inside := LengthInside(length, c);
    InsideWithin(length, c);
    ShortenedNonNegative(length, factor, inside);
    if (Leaving(c) || Passing(c)) && factor * length > inside {
      ScaledUpNonNegative(length, factor, inside);
    }
    if Passing(c) && c.s1.Some? {
      var s := c.s1.value;
      ShareWithin(1.0 - s, length);
      ScaleMonotone(factor, (1.0 - s) * length, length);
    }
  }

  /** With 0 <= L_in <= L, both L + (f - 1) L_in and f L are non-negative. */
  lemma ShortenedNonNegative(length: real, factor: real, inside: real)
    requires factor > 0.0 && 0.0 <= inside <= length
    ensures length + (factor - 1.0) * inside >= 0.0 && factor * length >= 0.0
  {
    assert length + (factor - 1.0) * inside == (length - inside) + factor * inside;
    assert factor * inside >= 0.0;
  }

  /** A fraction of a non-negative amount lies between zero and the amount. */
  lemma ShareWithin(fraction: real, x: real)
    requires x >= 0.0 && 0.0 <= fraction <= 1.0
    ensures 0.0 <= fraction * x <= x
  {
    assert (1.0 - fraction) * x >= 0.0;
  }

  /** Scaling by a positive factor keeps the order. */
  lemma ScaleMonotone(factor: real, a: real, b: real)
    requires factor > 0.0 && a <= b
    ensures factor * a <= factor * b
  {
    assert factor * (b - a) >= 0.0;
  }

  /** L + (1 - 1/f) L_in >= 0 when f L > L_in: multiply through by f. */
  lemma ScaledUpNonNegative(length: real, factor: real, inside: real)
    requires factor > 0.0 && inside >= 0.0 && factor * length > inside
    ensures length + (1.0 - 1.0 / factor) * inside >= 0.0
  {
    var d := length + (1.0 - 1.0 / factor) * inside;
    assert factor * d == factor * length + factor * inside - inside;
    assert factor * inside >= 0.0;
  }

  /** The correction of a problem as the kernel is meant to compute it,
      without the early return of hole_ice.c:70. */
  function CorrectedDistance(length: real, factor: real, p: Problem, root: real): (d: Result<real, CorrectionError>)
    requires SqrtOfDiscriminant(p, root)
    ensures d != Failure(CaseSixReached) && d != Failure(UnhandledCase)
    ensures factor != 0.0 ==> d.Success?
  {
    TwoCrossingsStartOutside(p, root);
    CorrectedDistanceIntended(length, factor, Classify(p, root))
  }

  /** For a problem, a positive factor and a non-negative length, the
      corrected length is non-negative. */
  lemma ProblemCorrectionNonNegative(length: real, factor: real, p: Problem, root: real)
    requires SqrtOfDiscriminant(p, root)
    requires factor > 0.0 && length >= 0.0
    ensures CorrectedDistance(length, factor, p, root).Success?
    ensures CorrectedDistance(length, factor, p, root).value >= 0.0
    ensures CorrectedDistanceShipped(length, factor, Classify(p, root)) >= 0.0
  {
    CorrectedDistanceNonNegative(length, factor, Classify(p, root));
  }
}
