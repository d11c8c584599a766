/** The standard clsim propagation step, in its tilt-function form: the
    photon walks layer by layer from its own layer in the direction of its
    vertical direction cosine, spending its scattering and absorption
    budgets, which are kept as `ais` and `aia`, the budgets left beyond the
    boundary ahead, in layer thicknesses. */
module StandardClsim {
  import opened Media

  /** The state the two layer loops update: the layer `j`, the boundary
      ahead of the photon, the lengths in force, and the budgets `ais` and
      `aia`. */
  datatype LayerWalk = LayerWalk(j: int, boundary: real, scaLen: real, absLen: real, ais: real, aia: real)

  /** What the step writes through its pointers: the absorption budget
      left, the distance to the next scattering and the distance to
      absorption.  The scattering budget is not written. */
  datatype Outcome = Outcome(absLeft: real, propagated: real, toAbsorption: real)

  /** The sum of 1/len(i) over the layers in [lo, hi). */
  function RecipSum(len: int -> real, lo: int, hi: int): real
    requires lo <= hi && forall i :: lo <= i < hi ==> len(i) > 0.0
    decreases hi - lo
  {
    if lo == hi then 0.0 else 1.0 / len(lo) + RecipSum(len, lo + 1, hi)
  }

  /** The sum peeled at its upper end. */
  lemma {:induction false} RecipSumLast(len: int -> real, lo: int, hi: int)
    requires lo < hi && forall i :: lo <= i < hi ==> len(i) > 0.0
    ensures RecipSum(len, lo, hi) == RecipSum(len, lo, hi - 1) + 1.0 / len(hi - 1)
    decreases hi - lo
  {
    if lo < hi - 1 {
      RecipSumLast(len, lo + 1, hi);
    }
  }

  /** The next boundary in the direction of travel: the bottom of the layer
      when going down, its top otherwise. */
  function FirstBoundary(m: Medium, layer: int, dz: real): real {
    if dz < 0.0 then m.boundary(layer) else m.boundary(layer) + m.thickness
  }

  /** The state before the loops, for the tilt-corrected height `effectiveZ`
      and the budgets `scaLeft` and `absLeft` (the latter already scaled by
      the directional correction factor). */
  function StartWalk(m: Medium, effectiveZ: real, dz: real, scaLeft: real, absLeft: real): LayerWalk
    requires Valid(m)
  {
    var layer := PhotonLayer(m, effectiveZ);
    var boundary := FirstBoundary(m, layer, dz);
    var scaLen := m.scatteringLength(layer);
    var absLen := m.absorptionLength(layer);
    LayerWalk(layer, boundary, scaLen, absLen,
      (dz * scaLeft - (boundary - effectiveZ) / scaLen) * (1.0 / m.thickness),
      (dz * absLeft - (boundary - effectiveZ) / absLen) * (1.0 / m.thickness))
  }

  /** One iteration of the downward loop: the layer below becomes current,
      its lengths are loaded and a full layer's worth is given back to the
      (negative) budgets. */
  function StepDown(m: Medium, w: LayerWalk): (r: LayerWalk)
    requires Valid(m) && 0 < w.j < m.layers
  {
    var j := w.j - 1;
    var scaLen := m.scatteringLength(j);
    var absLen := m.absorptionLength(j);
    LayerWalk(j, w.boundary - m.thickness, scaLen, absLen, w.ais + 1.0 / scaLen, w.aia + 1.0 / absLen)
  }

  /** One iteration of the upward loop. */
  function StepUp(m: Medium, w: LayerWalk): (r: LayerWalk)
    requires Valid(m) && 0 <= w.j < m.layers - 1
  {
    var j := w.j + 1;
    var scaLen := m.scatteringLength(j);
    var absLen := m.absorptionLength(j);
    LayerWalk(j, w.boundary + m.thickness, scaLen, absLen, w.ais - 1.0 / scaLen, w.aia - 1.0 / absLen)
  }

  /** The downward loop: on while there is a layer below and both budgets
      reach past the boundary. */
  function WalkDown(m: Medium, w: LayerWalk): (r: LayerWalk)
    requires Valid(m) && 0 <= w.j < m.layers
    ensures 0 <= r.j <= w.j
    ensures w.scaLen > 0.0 && w.absLen > 0.0 ==> r.scaLen > 0.0 && r.absLen > 0.0
    decreases w.j
  {
    if w.j > 0 && w.ais < 0.0 && w.aia < 0.0 then WalkDown(m, StepDown(m, w)) else w
  }

  /** The upward loop. */
  function WalkUp(m: Medium, w: LayerWalk): (r: LayerWalk)
    requires Valid(m) && 0 <= w.j < m.layers
    ensures w.j <= r.j < m.layers
    ensures w.scaLen > 0.0 && w.absLen > 0.0 ==> r.scaLen > 0.0 && r.absLen > 0.0
    decreases m.layers - w.j
  {
    if w.j < m.layers - 1 && w.ais > 0.0 && w.aia > 0.0 then WalkUp(m, StepUp(m, w)) else w
  }

  function Walk(m: Medium, w: LayerWalk, dz: real): (r: LayerWalk)
    requires Valid(m) && 0 <= w.j < m.layers
    ensures 0 <= r.j < m.layers
    ensures w.scaLen > 0.0 && w.absLen > 0.0 ==> r.scaLen > 0.0 && r.absLen > 0.0
  {
    if dz < 0.0 then WalkDown(m, w) else WalkUp(m, w)
  }

  /** The distance to the next scattering along the trajectory, from the
      walk's final state, when the photon has left its layer. */
  function MovedDistance(w: LayerWalk, thickness: real, effectiveZ: real, dz: real): real
    requires dz != 0.0
  {
    (w.ais * thickness * w.scaLen + w.boundary - effectiveZ) * (1.0 / dz)
  }

  /** The same for absorption. */
  function MovedAbsorption(w: LayerWalk, thickness: real, effectiveZ: real, dz: real): real
    requires dz != 0.0
  {
    (w.aia * thickness * w.absLen + w.boundary - effectiveZ) * (1.0 / dz)
  }

  /** The two distances: in the current medium's lengths when the photon
      stays in its layer or moves almost horizontally, from the remaining
      budgets otherwise. */
  function Distances(start: int, w: LayerWalk, thickness: real, effectiveZ: real, dz: real,
                     epsilon: real, scaLeft: real, absLeft: real): (real, real)
    requires epsilon > 0.0
  {
    if start == w.j || Abs(dz) < epsilon then (scaLeft * w.scaLen, absLeft * w.absLen)
    else (MovedDistance(w, thickness, effectiveZ, dz), MovedAbsorption(w, thickness, effectiveZ, dz))
  }

  /** The overburden: the step ends at the nearer of scattering and
      absorption, and the absorption budget becomes what is left of the way
      to absorption, in the current absorption length. */
  function Overburden(propagated: real, toAbsorption: real, absLen: real): Outcome
    requires absLen > 0.0
  {
    if toAbsorption < propagated then Outcome(0.0, toAbsorption, toAbsorption)
    else Outcome((toAbsorption - propagated) / absLen, propagated, toAbsorption)
  }

  /** The step with the absorption budget already scaled by the correction
      factor. */
  function Core(m: Medium, effectiveZ: real, dz: real, epsilon: real, scaLeft: real, absLeft: real): Outcome
    requires Valid(m) && epsilon > 0.0
  {
    var start := StartWalk(m, effectiveZ, dz, scaLeft, absLeft);
    var w := Walk(m, start, dz);
    var d := Distances(start.j, w, m.thickness, effectiveZ, dz, epsilon, scaLeft, absLeft);
    Overburden(d.0, d.1, w.absLen)
  }

  /** The whole step: the tilt shift lowers the photon's height, the
      correction factor scales the absorption budget on the way in and is
      taken out again on the way out. */
  function Standard(m: Medium, z: real, tiltShift: real, dz: real, factor: real, epsilon: real,
                    scaLeft: real, absLeft: real): Outcome
    requires Valid(m) && factor != 0.0 && epsilon > 0.0
  {
    var o := Core(m, z - tiltShift, dz, epsilon, scaLeft, absLeft * factor);
    o.(absLeft := o.absLeft / factor)
  }

  // ---------------------------------------------------------------------
  // The kernel function

  /** apply_propagation_through_different_media_with_standard_clsim: the
      two layer loops update the walk state in place, then the outputs are
      written. */
  method ApplyStandardClsim(m: Medium, z: real, tiltShift: real, dz: real, factor: real, epsilon: real,
                            scaLeft: real, absLeft: real) returns (o: Outcome)
    requires Valid(m) && factor != 0.0 && epsilon > 0.0
    ensures o == Standard(m, z, tiltShift, dz, factor, epsilon, scaLeft, absLeft)
  {
    var effectiveZ := z - tiltShift;
    var corrected := absLeft * factor;
    var start := StartWalk(m, effectiveZ, dz, scaLeft, corrected);
    var w := start;
    if dz < 0.0 {
      while w.j > 0 && w.ais < 0.0 && w.aia < 0.0
        invariant 0 <= w.j < m.layers
        invariant WalkDown(m, w) == WalkDown(m, start)
        decreases w.j
      {
        w := StepDown(m, w);
      }
    } else {
      while w.j < m.layers - 1 && w.ais > 0.0 && w.aia > 0.0
        invariant 0 <= w.j < m.layers
        invariant WalkUp(m, w) == WalkUp(m, start)
        decreases m.layers - w.j
      {
        w := StepUp(m, w);
      }
    }
    assert w == Walk(m, start, dz);
    var propagated, toAbsorption := WriteDistances(start.j, w, m.thickness, effectiveZ, dz, epsilon, scaLeft, corrected);
    ghost var core := Overburden(propagated, toAbsorption, w.absLen);
    assert core == Core(m, effectiveZ, dz, epsilon, scaLeft, corrected);
    var left;
    if toAbsorption < propagated {
      propagated := toAbsorption;
      left := 0.0;
    } else {
      left := (toAbsorption - propagated) / w.absLen;
    }
    o := Outcome(left / factor, propagated, toAbsorption);
  }

  /** The branch that writes the two distances. */
  method WriteDistances(start: int, w: LayerWalk, thickness: real, effectiveZ: real, dz: real,
                        epsilon: real, scaLeft: real, absLeft: real) returns (propagated: real, toAbsorption: real)
    requires epsilon > 0.0
    ensures propagated == Distances(start, w, thickness, effectiveZ, dz, epsilon, scaLeft, absLeft).0
    ensures toAbsorption == Distances(start, w, thickness, effectiveZ, dz, epsilon, scaLeft, absLeft).1
  {
    if start == w.j || Abs(dz) < epsilon {
      propagated := scaLeft * w.scaLen;
      toAbsorption := absLeft * w.absLen;
    } else {
      propagated := MovedDistance(w, thickness, effectiveZ, dz);
      toAbsorption := MovedAbsorption(w, thickness, effectiveZ, dz);
    }
  }

  // ---------------------------------------------------------------------
  // Properties

  /** The walk starts in the photon's clamped layer, at the boundary ahead
      of it, with that layer's lengths, and its budgets are the scattering
      and absorption budgets minus the part spent up to that boundary, in
      layer thicknesses. */
  lemma StartWalkMeaning(m: Medium, effectiveZ: real, dz: real, scaLeft: real, absLeft: real)
    requires Valid(m)
    ensures var w := StartWalk(m, effectiveZ, dz, scaLeft, absLeft);
      0 <= w.j < m.layers
      && (0 <= m.layerAt(effectiveZ) < m.layers ==> w.j == m.layerAt(effectiveZ))
      && (dz < 0.0 ==> w.boundary == m.boundary(w.j))
      && (dz >= 0.0 ==> w.boundary == m.boundary(w.j) + m.thickness)
      && w.scaLen == m.scatteringLength(w.j) && w.absLen == m.absorptionLength(w.j)
      && w.ais * m.thickness == dz * scaLeft - (w.boundary - effectiveZ) / w.scaLen
      && w.aia * m.thickness == dz * absLeft - (w.boundary - effectiveZ) / w.absLen
  {
    var w := StartWalk(m, effectiveZ, dz, scaLeft, absLeft);
    var x := dz * scaLeft - (w.boundary - effectiveZ) / w.scaLen;
    var y := dz * absLeft - (w.boundary - effectiveZ) / w.absLen;
    assert w.ais == x * (1.0 / m.thickness);
    assert w.aia == y * (1.0 / m.thickness);
    ScaledBack(x, m.thickness);
    ScaledBack(y, m.thickness);
  }

  lemma ScaledBack(x: real, t: real)
    requires t > 0.0
    ensures x * (1.0 / t) * t == x
  {
  }

  /** Going down, the layer only decreases and stays in the table; the
      boundary drops one thickness per layer; the lengths are those of the
      layer reached; and the loop ends at the bottom layer or when a budget
      no longer reaches past the boundary. */
  lemma {:induction false} WalkDownMeaning(m: Medium, w: LayerWalk)
    requires Valid(m) && 0 <= w.j < m.layers
    ensures var r := WalkDown(m, w);
      0 <= r.j <= w.j
      && r.boundary == w.boundary - (w.j - r.j) as real * m.thickness
      && (r.j < w.j ==> r.scaLen == m.scatteringLength(r.j) && r.absLen == m.absorptionLength(r.j))
      && (r.j == w.j ==> r == w)
      && (r.j == 0 || r.ais >= 0.0 || r.aia >= 0.0)
    decreases w.j
  {
    if w.j > 0 && w.ais < 0.0 && w.aia < 0.0 {
      var s := StepDown(m, w);
      WalkDownMeaning(m, s);
      LayersApart(w.boundary, m.thickness, w.j - WalkDown(m, s).j);
    }
  }

  /** Going down, each budget is given back the reciprocal lengths of the
      layers entered. */
  lemma {:induction false} WalkDownBudget(m: Medium, w: LayerWalk)
    requires Valid(m) && 0 <= w.j < m.layers
    ensures var r := WalkDown(m, w);
      r.ais == w.ais + RecipSum(m.scatteringLength, r.j, w.j)
      && r.aia == w.aia + RecipSum(m.absorptionLength, r.j, w.j)
    decreases w.j
  {
    if w.j > 0 && w.ais < 0.0 && w.aia < 0.0 {
      var s := StepDown(m, w);
      WalkDownBudget(m, s);
      var r := WalkDown(m, s);
      RecipSumLast(m.scatteringLength, r.j, w.j);
      RecipSumLast(m.absorptionLength, r.j, w.j);
    }
  }

  /** Going up, the same with the layer only increasing and the boundary
      rising. */
  lemma {:induction false} WalkUpMeaning(m: Medium, w: LayerWalk)
    requires Valid(m) && 0 <= w.j < m.layers
    ensures var r := WalkUp(m, w);
      w.j <= r.j < m.layers
      && r.boundary == w.boundary + (r.j - w.j) as real * m.thickness
      && (r.j > w.j ==> r.scaLen == m.scatteringLength(r.j) && r.absLen == m.absorptionLength(r.j))
      && (r.j == w.j ==> r == w)
      && (r.j == m.layers - 1 || r.ais <= 0.0 || r.aia <= 0.0)
    decreases m.layers - w.j
  {
    if w.j < m.layers - 1 && w.ais > 0.0 && w.aia > 0.0 {
      var s := StepUp(m, w);
      WalkUpMeaning(m, s);
      LayersApart(w.boundary, -m.thickness, WalkUp(m, s).j - w.j);
    }
  }

  /** Going up, the reciprocal lengths of the layers entered are taken from
      the budgets. */
  lemma {:induction false} WalkUpBudget(m: Medium, w: LayerWalk)
    requires Valid(m) && 0 <= w.j < m.layers
    ensures var r := WalkUp(m, w);
      r.ais == w.ais - RecipSum(m.scatteringLength, w.j + 1, r.j + 1)
      && r.aia == w.aia - RecipSum(m.absorptionLength, w.j + 1, r.j + 1)
    decreases m.layers - w.j
  {
    if w.j < m.layers - 1 && w.ais > 0.0 && w.aia > 0.0 {
      WalkUpBudget(m, StepUp(m, w));
    }
  }

  /** One thickness and then k - 1 more are k thicknesses. */
  lemma LayersApart(boundary: real, thickness: real, k: int)
    ensures boundary - thickness - (k - 1) as real * thickness == boundary - k as real * thickness
  {
  }

  /** The distance from the final state puts the photon where the budget
      left beyond the final boundary, in layer thicknesses, is used up in
      the final layer's length. */
  lemma MovedDistanceMeaning(w: LayerWalk, thickness: real, effectiveZ: real, dz: real)
    requires dz != 0.0 && w.scaLen > 0.0
    ensures var d := MovedDistance(w, thickness, effectiveZ, dz);
      (effectiveZ + d * dz - w.boundary) / w.scaLen == w.ais * thickness
  {
    var x := w.ais * thickness * w.scaLen + w.boundary - effectiveZ;
    var d := MovedDistance(w, thickness, effectiveZ, dz);
    assert d == x * (1.0 / dz);
    assert d * dz == x;
    assert effectiveZ + d * dz - w.boundary == (w.ais * thickness) * w.scaLen;
  }

  /** When the photon does not leave its layer, the formula for a moved
      photon gives the distance in the layer's own scattering length: the
      shortcut at the branch is the same distance. */
  lemma {:induction false} StayingBranchesAgree(m: Medium, effectiveZ: real, dz: real, scaLeft: real, absLeft: real)
    requires Valid(m) && dz != 0.0
    ensures var w := StartWalk(m, effectiveZ, dz, scaLeft, absLeft);
      MovedDistance(w, m.thickness, effectiveZ, dz) == scaLeft * w.scaLen
  {
    var w := StartWalk(m, effectiveZ, dz, scaLeft, absLeft);
    StartWalkMeaning(m, effectiveZ, dz, scaLeft, absLeft);
    MovedDistanceMeaning(w, m.thickness, effectiveZ, dz);
    var d := MovedDistance(w, m.thickness, effectiveZ, dz);
    var u := effectiveZ + d * dz - w.boundary;
    assert u / w.scaLen + (w.boundary - effectiveZ) / w.scaLen == dz * scaLeft;
    assert (u + (w.boundary - effectiveZ)) / w.scaLen == dz * scaLeft;
    assert d * dz / w.scaLen == dz * scaLeft;
    assert d * dz == dz * scaLeft * w.scaLen;
  }

  /** Going up from a state whose budget is set up as the start's is (see
      StartWalkMeaning), the scattering budget is spent exactly: the
      lengths' worth of the way to the first boundary, the full layers
      entered, and the part of the final layer below the end point add up
      to the budget (all along the vertical, hence the factor dz). */
  lemma {:induction false} UpwardSpendsScatteringBudget(m: Medium, effectiveZ: real, dz: real, scaLeft: real,
                                     w: LayerWalk, r: LayerWalk, d: real)
    requires Valid(m) && dz > 0.0
    requires 0 <= w.j < m.layers && w.scaLen > 0.0 && w.absLen > 0.0
    requires w.ais * m.thickness == dz * scaLeft - (w.boundary - effectiveZ) / w.scaLen
    requires r == WalkUp(m, w) && d == MovedDistance(r, m.thickness, effectiveZ, dz)
    ensures dz * scaLeft
        == (w.boundary - effectiveZ) / w.scaLen
         + m.thickness * RecipSum(m.scatteringLength, w.j + 1, r.j + 1)
         + (effectiveZ + d * dz - r.boundary) / r.scaLen
  {
    WalkUpBudget(m, w);
    Spent(m.thickness, effectiveZ, dz, scaLeft, w, r, -RecipSum(m.scatteringLength, w.j + 1, r.j + 1), d);
  }

  /** Going down, likewise, with the full layers entered counted against
      the (negative) vertical way. */
  lemma {:induction false} DownwardSpendsScatteringBudget(m: Medium, effectiveZ: real, dz: real, scaLeft: real,
                                       w: LayerWalk, r: LayerWalk, d: real)
    requires Valid(m) && dz < 0.0
    requires 0 <= w.j < m.layers && w.scaLen > 0.0 && w.absLen > 0.0
    requires w.ais * m.thickness == dz * scaLeft - (w.boundary - effectiveZ) / w.scaLen
    requires r == WalkDown(m, w) && d == MovedDistance(r, m.thickness, effectiveZ, dz)
    ensures dz * scaLeft
        == (w.boundary - effectiveZ) / w.scaLen
         - m.thickness * RecipSum(m.scatteringLength, r.j, w.j)
         + (effectiveZ + d * dz - r.boundary) / r.scaLen
  {
    WalkDownBudget(m, w);
    Spent(m.thickness, effectiveZ, dz, scaLeft, w, r, RecipSum(m.scatteringLength, r.j, w.j), d);
  }

  /** The bookkeeping of the two lemmas above for any start and end of the
      walk: what the start's budget does not spend up to the first boundary
      is changed by the layers entered and used up in the last layer. */
  lemma {:induction false} Spent(thickness: real, effectiveZ: real, dz: real, scaLeft: real, w: LayerWalk, r: LayerWalk,
              entered: real, d: real)
    requires dz != 0.0 && w.scaLen > 0.0 && r.scaLen > 0.0
    requires w.ais * thickness == dz * scaLeft - (w.boundary - effectiveZ) / w.scaLen
    requires r.ais == w.ais + entered && d == MovedDistance(r, thickness, effectiveZ, dz)
    ensures dz * scaLeft
        == (w.boundary - effectiveZ) / w.scaLen - thickness * entered + (effectiveZ + d * dz - r.boundary) / r.scaLen
  {
    MovedDistanceMeaning(r, thickness, effectiveZ, dz);
    assert r.ais * thickness == w.ais * thickness + entered * thickness;
  }

  /** The overburden: the step is the nearer of the two distances, the
      distance to absorption is kept, and the absorption budget is zero
      when absorption comes first and otherwise the way still left to
      absorption, in the current absorption length. */
  lemma OverburdenMeaning(propagated: real, toAbsorption: real, absLen: real)
    requires absLen > 0.0
    ensures var o := Overburden(propagated, toAbsorption, absLen);
      o.propagated == (if toAbsorption < propagated then toAbsorption else propagated)
      && o.toAbsorption == toAbsorption
      && o.propagated <= o.toAbsorption
      && (toAbsorption < propagated ==> o.absLeft == 0.0)
      && (toAbsorption >= propagated ==> o.absLeft >= 0.0 && o.absLeft * absLen == toAbsorption - propagated)
  {
  }

  /** The correction factor is taken out again: the absorption budget the
      step leaves, scaled by the factor, is the one the uncorrected step
      leaves for the scaled budget, and with a factor of one the step is
      the uncorrected one. */
  lemma {:induction false} CorrectionFactorHoisted(m: Medium, z: real, tiltShift: real, dz: real, factor: real, epsilon: real,
                                scaLeft: real, absLeft: real)
    requires Valid(m) && factor != 0.0 && epsilon > 0.0
    ensures var o := Standard(m, z, tiltShift, dz, factor, epsilon, scaLeft, absLeft);
      var c := Core(m, z - tiltShift, dz, epsilon, scaLeft, absLeft * factor);
      o.absLeft * factor == c.absLeft && o.propagated == c.propagated && o.toAbsorption == c.toAbsorption
    ensures factor == 1.0 ==>
      Standard(m, z, tiltShift, dz, factor, epsilon, scaLeft, absLeft) == Core(m, z - tiltShift, dz, epsilon, scaLeft, absLeft)
  {
  }

  /** Without moving and when absorption is not reached, the step runs its
      whole scattering budget in the photon's own layer and keeps as
      absorption budget the rest of the way to absorption. */
  lemma {:induction false} WithinLayerStep(m: Medium, effectiveZ: real, dz: real, epsilon: real, scaLeft: real, absLeft: real,
                        w: LayerWalk)
    requires Valid(m) && epsilon > 0.0
    requires w == StartWalk(m, effectiveZ, dz, scaLeft, absLeft)
    requires Walk(m, w, dz).j == w.j && scaLeft * w.scaLen <= absLeft * w.absLen
    ensures var o := Core(m, effectiveZ, dz, epsilon, scaLeft, absLeft);
      o.propagated == scaLeft * w.scaLen
      && o.toAbsorption == absLeft * w.absLen
      && o.absLeft * w.absLen == absLeft * w.absLen - scaLeft * w.scaLen
  {
    CoreInOwnLayer(m, effectiveZ, dz, epsilon, scaLeft, absLeft, w);
    OverburdenMeaning(scaLeft * w.scaLen, absLeft * w.absLen, w.absLen);
  }

  lemma {:induction false} CoreInOwnLayer(m: Medium, effectiveZ: real, dz: real, epsilon: real, scaLeft: real,
                                          absLeft: real, w: LayerWalk)
    requires Valid(m) && epsilon > 0.0
    requires w == StartWalk(m, effectiveZ, dz, scaLeft, absLeft) && Walk(m, w, dz).j == w.j
    ensures w.absLen > 0.0
    ensures Core(m, effectiveZ, dz, epsilon, scaLeft, absLeft) == Overburden(scaLeft * w.scaLen, absLeft * w.absLen, w.absLen)
  {
    WalkStaysPut(m, w, dz);
    var d := Distances(w.j, w, m.thickness, effectiveZ, dz, epsilon, scaLeft, absLeft);
    assert d.0 == scaLeft * w.scaLen && d.1 == absLeft * w.absLen;
  }

  /** A walk that ends in its own layer has not changed its state. */
  lemma {:induction false} WalkStaysPut(m: Medium, w: LayerWalk, dz: real)
    requires Valid(m) && 0 <= w.j < m.layers && Walk(m, w, dz).j == w.j
    ensures Walk(m, w, dz) == w
  {
    if dz < 0.0 {
      WalkDownMeaning(m, w);
    } else {
      WalkUpMeaning(m, w);
    }
  }
}
